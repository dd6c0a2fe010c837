/** What the control loop guarantees over every run: it fails closed, and a silent link ends disarmed. */
module LoopSafety {
  import opened Wrappers
  import opened RcCommand
  import opened ControlLoop
  import CR = CommandReceiver
  import CS = CmdSeq
  import RM = RcMath
  import Server = CommandServer
  import FC = FlightController
  import FS = FlightSafety
  import MF = MspFraming
  import Sink = MspRcSink

  /** The loop before tick `n` of a run. */
  function Before(l: Loop, inputs: seq<Input>, n: nat): Loop
    requires n <= |inputs|
  {
    if n == 0 then l else Tick(Before(l, inputs, n - 1), inputs[n - 1])
  }

  // -------------------------------------------------------------------- one tick

  /** What running a mode can do to the mode, hover and the landing timer. */
  predicate Sound(s: FC.State, r: FC.State) {
    && r.hover == s.hover && (Powered(r.mode) ==> Powered(s.mode))
    && (s.mode == FC.LandSafely ==> r.mode == FC.LandSafely)
    && (s.landTimer >= 0.0 ==> r.landTimer >= 0.0)
  }

  lemma LandIsSound(s: FC.State, dt: real)
    requires dt >= 0.0
    ensures Sound(s, FC.RunLandSafely(s, dt)) && FC.RunLandSafely(s, dt).mode == s.mode
  {
    hide FC.RampThrottle, FC.LandStart;
  }

  lemma TrackingIsSound(s: FC.State, dt: real)
    requires s.mode == FC.Tracking && dt >= 0.0
    ensures Sound(s, FC.RunTracking(s, dt))
  {
    hide FC.RunLandSafely, FC.AltHoldThrottle, FC.YawFor, FC.PitchFor, FC.Deadbanded, FC.ForwardFor;
    LandIsSound(FC.SetControlMode(s, FC.LandSafely), dt);
  }

  lemma TakeoffIsSound(s: FC.State, dt: real)
    requires s.mode == FC.Takeoff && dt >= 0.0
    ensures Sound(s, FC.RunTakeoff(s, dt))
  {
    hide FC.RunLandSafely, FC.TakeoffRamp;
    LandIsSound(FC.SetControlMode(s, FC.LandSafely), dt);
  }

  lemma StepIsSound(s: FC.State, dt: real)
    ensures Sound(s, FC.UpdateTimeStep(s, dt))
  {
    hide FC.RunLandSafely, FC.RunTracking, FC.RunTakeoff, FC.ClampChannels;
    var d := FC.ClampedDt(dt);
    var t := s.(now := s.now + d);
    match s.mode
    case Manual =>
    case Tracking => TrackingIsSound(t, d);
    case LandSafely => LandIsSound(t, d);
    case Takeoff => TakeoffIsSound(t, d);
  }

  lemma CommandSetsMode(s: FC.State, cmd: CR.CommandFrame, sinkOk: bool, mismatch: bool)
    ensures var r := ApplyCommand(s, cmd, sinkOk, mismatch);
            r.hover == s.hover && r.mode == ApplyMode(s, cmd.desiredMode, sinkOk, mismatch).mode
            && r.landTimer == ApplyMode(s, cmd.desiredMode, sinkOk, mismatch).landTimer
  {
  }

  /** When the time step runs with power on, everything it relies on is there. */
  predicate Safe(b: Loop, i: Input) {
    Powered(b.fc.mode) ==> b.fc.hover != 0 && i.sinkOk && !i.mismatch && i.age <= CMD_TIMEOUT_S
  }

  /** A command is accepted into a powered mode while the link is latched as stale, and is stale itself. */
  predicate StaleAccept(l: Loop, i: Input) {
    && l.failsafe && StaleNow(i) && IsNew(l.lastSeq, i.cmd)
    && var mode := ToControlMode(i.cmd.value.desiredMode);
       mode.Some? && Powered(mode.value) && Gate(mode.value, l.fc.hover, i.sinkOk, i.mismatch)
  }

  predicate Closed(l: Loop, mismatch: bool) {
    && (l.failsafe || l.sinkDegraded ==> !Powered(l.fc.mode))
    && (Powered(l.fc.mode) ==> l.fc.hover != 0 && !mismatch)
  }

  lemma TickCloses(l: Loop, i: Input)
    requires Closed(l, i.mismatch) && !StaleAccept(l, i)
    ensures Safe(BeforeStep(l, i), i) && Closed(Tick(l, i), i.mismatch)
  {
    hide ApplyCommand, FC.UpdateTimeStep, CS.MaskAdvances;
    if IsNew(l.lastSeq, i.cmd) {
      CommandSetsMode(l.fc, i.cmd.value, i.sinkOk, i.mismatch);
    }
    StepIsSound(BeforeStep(l, i).fc, i.dt);
  }

  lemma StaleAcceptIsUnsafe(l: Loop, i: Input)
    requires StaleAccept(l, i)
    ensures !Safe(BeforeStep(l, i), i)
  {
    hide ApplyCommand, CS.MaskAdvances;
    CommandSetsMode(l.fc, i.cmd.value, i.sinkOk, i.mismatch);
  }

  // ---------------------------------------------------------- exactly when it is safe

  lemma {:induction false} StaysClosed(hover: Us, mismatch: bool, inputs: seq<Input>, n: nat)
    requires n <= |inputs|
    requires forall k | 0 <= k < |inputs| :: inputs[k].mismatch == mismatch
    requires forall k | 0 <= k < n :: !StaleAccept(Before(Start(hover), inputs, k), inputs[k])
    ensures Closed(Before(Start(hover), inputs, n), mismatch)
  {
    hide Tick, StaleAccept;
    if n > 0 {
      StaysClosed(hover, mismatch, inputs, n - 1);
      TickCloses(Before(Start(hover), inputs, n - 1), inputs[n - 1]);
    }
  }

  /**
   Fail-closed, exactly: over a run with a fixed tuning verdict every powered time step is safe
   if and only if no tick accepts a stale command into a powered mode while the age latch is set.
   */
  lemma FailClosedIff(hover: Us, mismatch: bool, inputs: seq<Input>)
    requires forall k | 0 <= k < |inputs| :: inputs[k].mismatch == mismatch
    ensures (forall n | 0 <= n < |inputs| :: Safe(BeforeStep(Before(Start(hover), inputs, n), inputs[n]), inputs[n]))
       <==> (forall n | 0 <= n < |inputs| :: !StaleAccept(Before(Start(hover), inputs, n), inputs[n]))
  {
    hide Safe, StaleAccept, BeforeStep, Closed;
    var l := Start(hover);
    forall n | 0 <= n < |inputs| && StaleAccept(Before(l, inputs, n), inputs[n])
      ensures !Safe(BeforeStep(Before(l, inputs, n), inputs[n]), inputs[n])
    {
      StaleAcceptIsUnsafe(Before(l, inputs, n), inputs[n]);
    }
    if forall n | 0 <= n < |inputs| :: !StaleAccept(Before(l, inputs, n), inputs[n]) {
      forall n | 0 <= n < |inputs| ensures Safe(BeforeStep(Before(l, inputs, n), inputs[n]), inputs[n]) {
        StaysClosed(hover, mismatch, inputs, n);
        TickCloses(Before(l, inputs, n), inputs[n]);
      }
    }
  }

  // --------------------------------------------------- exactly when a stale link lands

  /** A stale command takes the latched loop out of LandSafely, and the sink check does not put it back. */
  predicate StaleLeave(l: Loop, i: Input) {
    && l.failsafe && StaleNow(i) && IsNew(l.lastSeq, i.cmd) && (i.sinkOk || l.sinkDegraded)
    && var mode := ToControlMode(i.cmd.value.desiredMode);
       mode.Some? && mode.value != FC.LandSafely && Gate(mode.value, l.fc.hover, i.sinkOk, i.mismatch)
  }

  predicate LatchedLands(l: Loop) {
    l.failsafe ==> l.fc.mode == FC.LandSafely
  }

  /** From a loop whose latch means landing, only an accepted stale command ends that. */
  lemma StaleTickLands(l: Loop, i: Input)
    requires LatchedLands(l) && !StaleLeave(l, i)
    ensures StaleNow(i) ==> BeforeStep(l, i).fc.mode == FC.LandSafely
    ensures LatchedLands(Tick(l, i))
  {
    hide ApplyCommand, FC.UpdateTimeStep, CS.MaskAdvances;
    if IsNew(l.lastSeq, i.cmd) {
      CommandSetsMode(l.fc, i.cmd.value, i.sinkOk, i.mismatch);
    }
    StepIsSound(BeforeStep(l, i).fc, i.dt);
  }

  lemma LeaveDoesNotLand(l: Loop, i: Input)
    requires StaleLeave(l, i)
    ensures StaleNow(i) && BeforeStep(l, i).fc.mode != FC.LandSafely
  {
    hide ApplyCommand, CS.MaskAdvances;
    CommandSetsMode(l.fc, i.cmd.value, i.sinkOk, i.mismatch);
  }

  /** The controller's state at the time step of tick `n`. */
  function StepState(hover: Us, inputs: seq<Input>, n: nat): FC.State
    requires n < |inputs|
  {
    BeforeStep(Before(Start(hover), inputs, n), inputs[n]).fc
  }

  /** The controller's state after tick `n`; its `cmd` is the output. */
  function After(hover: Us, inputs: seq<Input>, n: nat): FC.State
    requires n < |inputs|
  {
    Tick(Before(Start(hover), inputs, n), inputs[n]).fc
  }

  lemma {:induction false} LeaveBefore(hover: Us, inputs: seq<Input>, n: nat) returns (k: nat)
    requires n <= |inputs|
    ensures !LatchedLands(Before(Start(hover), inputs, n)) ==>
              && k < n && StaleLeave(Before(Start(hover), inputs, k), inputs[k])
              && forall j | k <= j < n :: StaleNow(inputs[j])
  {
    hide Tick, StaleLeave;
    k := 0;
    if n == 0 {
      return;
    }
    var l := Before(Start(hover), inputs, n - 1);
    LatchesAre(l, inputs[n - 1]);
    if LatchedLands(l) {
      k := n - 1;
      if !StaleLeave(l, inputs[k]) {
        StaleTickLands(l, inputs[k]);
      }
    } else {
      k := LeaveBefore(hover, inputs, n - 1);
    }
  }

  /**
   Behind every stale time step outside LandSafely is a tick that accepted a stale command into
   another mode while the age latch was set, and the link has been stale from that tick on.
   */
  lemma StalePowerHasCause(hover: Us, inputs: seq<Input>, e: nat) returns (k: nat)
    requires e < |inputs|
    ensures StaleNow(inputs[e]) && StepState(hover, inputs, e).mode != FC.LandSafely ==>
              && k <= e && StaleLeave(Before(Start(hover), inputs, k), inputs[k])
              && forall j | k <= j <= e :: StaleNow(inputs[j])
  {
    hide BeforeStep, StaleLeave, LatchedLands;
    var l := Before(Start(hover), inputs, e);
    if !StaleNow(inputs[e]) {
      k := e;
    } else if !LatchedLands(l) {
      k := LeaveBefore(hover, inputs, e);
    } else {
      k := e;
      if !StaleLeave(l, inputs[e]) {
        StaleTickLands(l, inputs[e]);
      }
    }
  }

  /**
   Over every run the controller lands in each stale time step if and only if no tick accepts a
   stale command into another mode while the age latch is set.
   */
  lemma StaleLandsIff(hover: Us, inputs: seq<Input>)
    ensures (forall n | 0 <= n < |inputs| :: StaleNow(inputs[n]) ==> StepState(hover, inputs, n).mode == FC.LandSafely)
       <==> (forall n | 0 <= n < |inputs| :: !StaleLeave(Before(Start(hover), inputs, n), inputs[n]))
  {
    hide StaleLeave, BeforeStep;
    forall n | 0 <= n < |inputs| && StaleLeave(Before(Start(hover), inputs, n), inputs[n])
      ensures StaleNow(inputs[n]) && StepState(hover, inputs, n).mode != FC.LandSafely
    {
      LeaveDoesNotLand(Before(Start(hover), inputs, n), inputs[n]);
    }
    forall n | 0 <= n < |inputs| && StaleNow(inputs[n]) && StepState(hover, inputs, n).mode != FC.LandSafely
      ensures exists k | 0 <= k < |inputs| :: StaleLeave(Before(Start(hover), inputs, k), inputs[k])
    {
      var k := StalePowerHasCause(hover, inputs, n);
    }
  }

  /** After a tick both latches show what the tick saw. */
  lemma LatchesAre(l: Loop, i: Input)
    ensures Tick(l, i).failsafe == StaleNow(i) && Tick(l, i).sinkDegraded == !i.sinkOk
  {
    hide ApplyCommand, FC.UpdateTimeStep, FC.SetControlMode;
  }

  // ------------------------------------------------ exactly when a dead link disarms

  /** From tick `e` to tick `n` the link is stale, and after tick `e` no command is new. */
  ghost predicate DeadLink(hover: Us, inputs: seq<Input>, e: nat, n: nat)
    requires e <= n < |inputs|
  {
    && (forall k | e <= k <= n :: StaleNow(inputs[k]))
    && (forall k | e < k <= n :: !IsNew(Before(Start(hover), inputs, k).lastSeq, inputs[k].cmd))
  }

  /** Controller time, as the controller clamps it, from tick `first` up to and including tick `last`. */
  function Elapsed(inputs: seq<Input>, first: nat, last: nat): (r: real)
    requires first <= last < |inputs|
    ensures r >= 0.0
  {
    FC.ClampedDt(inputs[last].dt) + (if first == last then 0.0 else Elapsed(inputs, first, last - 1))
  }

  lemma {:induction false} ElapsedShrinks(inputs: seq<Input>, a: nat, b: nat, n: nat)
    requires a <= b <= n < |inputs|
    ensures Elapsed(inputs, b, n) <= Elapsed(inputs, a, n)
    decreases n - b
  {
    if b < n {
      ElapsedShrinks(inputs, a, b, n - 1);
    }
  }

  /** The serial sink fails between tick `k - 1` and tick `k`. */
  predicate SinkTrips(inputs: seq<Input>, k: nat)
    requires 0 < k < |inputs|
  {
    inputs[k - 1].sinkOk && !inputs[k].sinkOk
  }

  /** How long a landing has been going on. */
  function LandClock(s: FC.State): real {
    if s.landInit then s.landTimer else 0.0
  }

  /** Power is on, or the next takeoff step puts it on. */
  predicate PowerOn(s: FC.State) {
    FC.Armed(s.cmd) || s.mode == FC.Takeoff
  }

  predicate Grounded(s: FC.State) {
    (Powered(s.mode) ==> s.hover != 0) && s.landTimer >= 0.0
  }

  lemma TickGrounds(l: Loop, i: Input)
    requires Grounded(l.fc)
    ensures Grounded(BeforeStep(l, i).fc) && Grounded(Tick(l, i).fc)
  {
    hide ApplyCommand, FC.UpdateTimeStep, CS.MaskAdvances;
    if IsNew(l.lastSeq, i.cmd) {
      CommandSetsMode(l.fc, i.cmd.value, i.sinkOk, i.mismatch);
    }
    StepIsSound(BeforeStep(l, i).fc, i.dt);
  }

  /** In every run the powered modes run on a calibrated hover only. */
  lemma {:induction false} StaysGrounded(hover: Us, inputs: seq<Input>, n: nat)
    requires n < |inputs|
    ensures Grounded(StepState(hover, inputs, n)) && Grounded(After(hover, inputs, n))
  {
    hide Tick, BeforeStep, Grounded;
    if n == 0 {
      StartIsGrounded(hover);
    } else {
      StaysGrounded(hover, inputs, n - 1);
    }
    TickGrounds(Before(Start(hover), inputs, n), inputs[n]);
  }

  lemma StartIsGrounded(hover: Us)
    ensures Grounded(Start(hover).fc)
  {
  }

  lemma TickIs(l: Loop, i: Input)
    ensures Tick(l, i).fc == FC.UpdateTimeStep(BeforeStep(l, i).fc, i.dt)
  {
    hide BeforeStep, FC.UpdateTimeStep;
  }

  /** On a dead link nothing but a failing sink comes between one time step and the next. */
  lemma QuietTick(hover: Us, inputs: seq<Input>, e: nat, n: nat)
    requires e < n < |inputs| && DeadLink(hover, inputs, e, n)
    ensures StepState(hover, inputs, n)
         == if SinkTrips(inputs, n) then FC.SetControlMode(After(hover, inputs, n - 1), FC.LandSafely)
            else After(hover, inputs, n - 1)
  {
    hide IsNew, FC.UpdateTimeStep, FC.SetControlMode;
    var l := Before(Start(hover), inputs, n - 1);
    LatchesAre(l, inputs[n - 1]);
    assert StaleNow(inputs[n - 1]);
  }

  lemma AfterIs(hover: Us, inputs: seq<Input>, n: nat)
    requires n < |inputs|
    ensures After(hover, inputs, n) == FC.UpdateTimeStep(StepState(hover, inputs, n), inputs[n].dt)
  {
    TickIs(Before(Start(hover), inputs, n), inputs[n]);
  }

  /** A dead link in LandSafely keeps landing on one clock, armed exactly while that clock is below five seconds. */
  lemma {:induction false} LandsOn(hover: Us, inputs: seq<Input>, e: nat, n: nat)
    requires e <= n < |inputs| && DeadLink(hover, inputs, e, n)
    ensures var b, a := StepState(hover, inputs, e), After(hover, inputs, n);
            b.mode == FC.LandSafely ==>
              && a.mode == FC.LandSafely && a.landInit
              && (FC.Armed(a.cmd) <==> FC.Armed(b.cmd) && LandClock(b) + Elapsed(inputs, e, n) < FC.DISARM_TIME_S)
              && (FC.Armed(a.cmd) ==> a.landTimer == LandClock(b) + Elapsed(inputs, e, n))
    decreases n - e
  {
    hide StepState, After, FC.UpdateTimeStep, FC.ClampedDt, FC.RampThrottle, FC.LandStart, FC.Armed, SinkTrips;
    if e < n {
      LandsOn(hover, inputs, e, n - 1);
      QuietTick(hover, inputs, e, n);
    }
    AfterIs(hover, inputs, n);
    if StepState(hover, inputs, e).mode == FC.LandSafely {
      FS.LandingTick(StepState(hover, inputs, n), inputs[n].dt);
    }
  }

  /** What a mode outside LandSafely does to the mode and to the arm state. */
  predicate Flown(s: FC.State, r: FC.State) {
    && r.mode != FC.LandSafely && (r.mode == FC.Takeoff ==> s.mode == FC.Takeoff)
    && (FC.Armed(r.cmd) <==> PowerOn(s))
  }

  lemma TrackingFlies(s: FC.State, dt: real)
    requires s.mode == FC.Tracking && s.hover != 0
    ensures Flown(s, FC.RunTracking(s, dt))
  {
    hide FC.AltHoldThrottle, FC.YawFor, FC.PitchFor, FC.Deadbanded, FC.ForwardFor, FC.RunLandSafely;
  }

  lemma TakeoffFlies(s: FC.State, dt: real)
    requires s.mode == FC.Takeoff && s.hover != 0
    ensures Flown(s, FC.RunTakeoff(s, dt))
  {
    hide FC.TakeoffRamp, FC.RunLandSafely;
  }

  /** A time step outside LandSafely stays outside, and only takeoff changes whether power is on. */
  lemma FlyingStep(s: FC.State, dt: real)
    requires s.mode != FC.LandSafely && Grounded(s)
    ensures var r := FC.UpdateTimeStep(s, dt);
            && Flown(s, r)
            && (s.mode == FC.Manual && FC.Armed(s.cmd) ==> r.mode == FC.Manual && r.cmd == FC.ClampChannels(s.cmd))
  {
    hide FC.RunTracking, FC.RunTakeoff, FC.ClampChannels;
    var d := FC.ClampedDt(dt);
    var t := s.(now := s.now + d);
    match s.mode
    case Manual =>
    case Tracking => TrackingFlies(t, d);
    case Takeoff => TakeoffFlies(t, d);
  }

  /** On a dead link outside LandSafely power stays as it is until the sink fails. */
  lemma {:induction false} FliesOn(hover: Us, inputs: seq<Input>, e: nat, n: nat)
    requires e <= n < |inputs| && DeadLink(hover, inputs, e, n) && StepState(hover, inputs, e).mode != FC.LandSafely
    requires forall k | e < k <= n :: !SinkTrips(inputs, k)
    ensures var b, a := StepState(hover, inputs, e), After(hover, inputs, n);
            && a.mode != FC.LandSafely && (a.mode == FC.Takeoff ==> b.mode == FC.Takeoff)
            && (FC.Armed(a.cmd) <==> PowerOn(b))
            && (b.mode == FC.Manual && FC.Armed(b.cmd) ==> a.mode == FC.Manual && a.cmd == FC.ClampChannels(b.cmd))
    decreases n - e
  {
    hide StepState, After, FC.UpdateTimeStep, FC.Armed, FC.ClampChannels, Grounded, SinkTrips;
    if e < n {
      FliesOn(hover, inputs, e, n - 1);
      QuietTick(hover, inputs, e, n);
      ClampedOnce(StepState(hover, inputs, e).cmd);
    }
    AfterIs(hover, inputs, n);
    StaysGrounded(hover, inputs, n);
    FlyingStep(StepState(hover, inputs, n), inputs[n].dt);
  }

  lemma ClampedOnce(c: Command)
    ensures FC.ClampChannels(FC.ClampChannels(c)) == FC.ClampChannels(c)
  {
  }

  lemma LandingBegins(s: FC.State)
    requires s.mode != FC.LandSafely
    ensures var r := FC.SetControlMode(s, FC.LandSafely);
            r.mode == FC.LandSafely && LandClock(r) == 0.0 && FC.Armed(r.cmd) == FC.Armed(s.cmd)
  {
  }

  lemma PartIsDead(hover: Us, inputs: seq<Input>, e: nat, n: nat, a: nat, b: nat)
    requires e <= a <= b <= n < |inputs| && DeadLink(hover, inputs, e, n)
    ensures DeadLink(hover, inputs, a, b)
  {
    hide IsNew, Before, StaleNow;
  }

  /** Outside LandSafely at tick `e`, tick `k` is the first whose sink fails: a landing starts there from zero. */
  lemma TripLands(hover: Us, inputs: seq<Input>, e: nat, k: nat, n: nat)
    requires e < k <= n < |inputs| && DeadLink(hover, inputs, e, n)
    requires SinkTrips(inputs, k) && forall j | e < j < k :: !SinkTrips(inputs, j)
    ensures var b := StepState(hover, inputs, e);
            b.mode != FC.LandSafely ==>
              (FC.Armed(After(hover, inputs, n).cmd) <==> PowerOn(b) && Elapsed(inputs, k, n) < FC.DISARM_TIME_S)
  {
    hide *;
    PartIsDead(hover, inputs, e, n, e, k - 1);
    PartIsDead(hover, inputs, e, n, e, k);
    PartIsDead(hover, inputs, e, n, k, n);
    if StepState(hover, inputs, e).mode != FC.LandSafely {
      FliesOn(hover, inputs, e, k - 1);
      QuietTick(hover, inputs, e, k);
      LandingBegins(After(hover, inputs, k - 1));
      LandsOn(hover, inputs, k, n);
    }
  }

  /**
   On every dead link, exactly when the output is disarmed: in LandSafely once the landing clock
   reaches five seconds; otherwise when power was off at tick `e`, or five seconds after the sink
   failed. Nothing else ever disarms it.
   */
  lemma DeadLinkDisarmsIff(hover: Us, inputs: seq<Input>, e: nat, n: nat)
    requires e <= n < |inputs| && DeadLink(hover, inputs, e, n)
    ensures var b, out := StepState(hover, inputs, e), After(hover, inputs, n).cmd;
            && (!FC.Armed(out) <==>
                  if b.mode == FC.LandSafely then
                    !FC.Armed(b.cmd) || LandClock(b) + Elapsed(inputs, e, n) >= FC.DISARM_TIME_S
                  else
                    !PowerOn(b) || exists k | e < k <= n && SinkTrips(inputs, k) ::
                                     Elapsed(inputs, k, n) >= FC.DISARM_TIME_S)
            && (!FC.Armed(out) ==> out.throttle == DRONE_MIN)
  {
    hide StepState, After, FC.UpdateTimeStep, FC.Armed, Elapsed, PowerOn, LandClock, SinkTrips;
    AfterIs(hover, inputs, n);
    FS.OutputIsSane(StepState(hover, inputs, n), inputs[n].dt);
    if StepState(hover, inputs, e).mode == FC.LandSafely {
      LandsOn(hover, inputs, e, n);
    } else if forall k | e < k <= n :: !SinkTrips(inputs, k) {
      FliesOn(hover, inputs, e, n);
    } else {
      var k := FirstTrip(inputs, e, n);
      TripLands(hover, inputs, e, k, n);
      forall j | e < j <= n && SinkTrips(inputs, j) ensures Elapsed(inputs, j, n) <= Elapsed(inputs, k, n) {
        ElapsedShrinks(inputs, k, j, n);
      }
    }
  }

  lemma FirstTrip(inputs: seq<Input>, e: nat, n: nat) returns (k: nat)
    requires e <= n < |inputs| && exists j | e < j <= n :: SinkTrips(inputs, j)
    ensures e < k <= n && SinkTrips(inputs, k) && forall j | e < j < k :: !SinkTrips(inputs, j)
  {
    hide SinkTrips;
    k := e + 1;
    while !SinkTrips(inputs, k)
      invariant e < k <= n && forall j | e < j < k :: !SinkTrips(inputs, j)
      decreases n - k
    {
      if k == n {
        assert false;
      }
      k := k + 1;
    }
  }

  /**
   The five-second disarm bound, exactly: on a dead link that has lasted five seconds of
   controller time the output is disarmed at minimum throttle if and only if at tick `e` the
   controller was landing or had no power on, or the sink failed at least five seconds ago.
   */
  lemma DisarmBoundIff(hover: Us, inputs: seq<Input>, e: nat, n: nat)
    requires e <= n < |inputs| && DeadLink(hover, inputs, e, n)
    ensures var b, out := StepState(hover, inputs, e), After(hover, inputs, n).cmd;
            Elapsed(inputs, e, n) >= FC.DISARM_TIME_S ==>
              (!FC.Armed(out) && out.throttle == DRONE_MIN <==>
               || b.mode == FC.LandSafely || !PowerOn(b)
               || exists k | e < k <= n && SinkTrips(inputs, k) :: Elapsed(inputs, k, n) >= FC.DISARM_TIME_S)
  {
    hide StepState, After, FC.Armed, Elapsed, PowerOn, SinkTrips;
    StaysGrounded(hover, inputs, e);
    DeadLinkDisarmsIff(hover, inputs, e, n);
  }

  // --------------------------------------------------------------------- timed runs

  /**
   When a tick reads the newest command, when it looks up the newest receive time, and when it
   reads the clock to make an age of it.
   */
  datatype TimedTick = TimedTick(dt: real, readAt: real, lookAt: real, checkAt: real, sinkOk: bool)

  function CommandAt(pubs: seq<Server.Publication>, t: real): Option<CR.CommandFrame> {
    Server.NewestCommand(Server.SeenAt(pubs, t))
  }

  function AgeAt(pubs: seq<Server.Publication>, look: real, check: real): real {
    Server.AgeOf(Server.SeenAt(pubs, look), check)
  }

  function InputAt(pubs: seq<Server.Publication>, tick: TimedTick, mismatch: bool): Input {
    Input(tick.dt, CommandAt(pubs, tick.readAt), AgeAt(pubs, tick.lookAt, tick.checkAt), tick.sinkOk, mismatch)
  }

  function Inputs(pubs: seq<Server.Publication>, ticks: seq<TimedTick>, mismatch: bool): (r: seq<Input>)
    ensures |r| == |ticks|
    ensures forall n | 0 <= n < |ticks| :: r[n] == InputAt(pubs, ticks[n], mismatch)
  {
    seq(|ticks|, n requires 0 <= n < |ticks| => InputAt(pubs, ticks[n], mismatch))
  }

  /** A tick asks the running server, which holds what is in place at the two moments, and gets its input. */
  method AskServer(pubs: seq<Server.Publication>, tick: TimedTick, mismatch: bool,
                   atRead: Server.CommandServer, atLook: Server.CommandServer) returns (i: Input)
    requires atRead.Valid() && atRead.published == Server.SeenAt(pubs, tick.readAt)
    requires atLook.Valid() && atLook.published == Server.SeenAt(pubs, tick.lookAt)
    ensures i == InputAt(pubs, tick, mismatch)
  {
    var cmd := atRead.LatestCommand();
    var age := atLook.SecondsSinceLastCmd(tick.checkAt);
    return Input(tick.dt, cmd, age, tick.sinkOk, mismatch);
  }

  /** Reads, looks and checks alternate in time. */
  ghost predicate Timely(ticks: seq<TimedTick>) {
    && (forall n | 0 <= n < |ticks| :: ticks[n].readAt <= ticks[n].lookAt <= ticks[n].checkAt)
    && (forall n | 0 < n < |ticks| :: ticks[n - 1].checkAt <= ticks[n].readAt)
  }

  /** Receive times are read on a running clock, and each command is in place at most `delay` later. */
  ghost predicate Prompt(pubs: seq<Server.Publication>, delay: real) {
    forall i | 0 <= i < |pubs| :: 0.0 < pubs[i].time && pubs[i].visible <= pubs[i].time + delay
  }

  /** With the delay added, every age check comes within the timeout of the read one tick before. */
  ghost predicate Paced(ticks: seq<TimedTick>, delay: real) {
    && Timely(ticks)
    && forall n | 0 < n < |ticks| :: ticks[n].checkAt - ticks[n - 1].readAt + delay <= CMD_TIMEOUT_S
  }

  /** Between `last` and `check` too much time goes by for the command, with its own delay into place. */
  predicate HeldUp(p: Server.Publication, last: real, check: real) {
    p.time <= 0.0 || check - last + (p.visible - p.time) > CMD_TIMEOUT_S
  }

  /** A command that was not there at the last read is fresh at the next check, unless it or the check was held up. */
  lemma NewMeansFresh(pubs: seq<Server.Publication>, lastSeq: Option<int>,
                      last: real, read: real, look: real, check: real)
    requires Server.Sorted(pubs) && last <= read <= look <= check
    requires !IsNew(lastSeq, CommandAt(pubs, last)) && IsNew(lastSeq, CommandAt(pubs, read))
    ensures var seen := Server.SeenAt(pubs, read);
            && seen != [] && seen[|seen| - 1].visible > last
            && (AgeAt(pubs, look, check) > CMD_TIMEOUT_S ==> HeldUp(seen[|seen| - 1], last, check))
  {
    hide IsNew, Server.SeenAt;
    Server.SeenLater(pubs, last, read);
    Server.SeenLater(pubs, read, look);
    NothingIsNew(lastSeq);
    var seen, later := Server.SeenAt(pubs, read), Server.SeenAt(pubs, look);
    var p, q := seen[|seen| - 1], later[|later| - 1];
    assert p == pubs[|seen| - 1] && q == pubs[|later| - 1];
    assert p.time <= q.time;
  }

  lemma NothingIsNew(lastSeq: Option<int>)
    ensures !IsNew(lastSeq, None)
  {
  }

  lemma JudgedAfter(l: Loop, i: Input)
    ensures !IsNew(Tick(l, i).lastSeq, i.cmd)
  {
    hide ApplyCommand, FC.UpdateTimeStep;
    if IsNew(l.lastSeq, i.cmd) {
      var n := i.cmd.value.seqNo;
      CS.SidesAgree(n, n);
    }
  }

  lemma OldCommandIsOld(hover: Us, inputs: seq<Input>, n: nat)
    requires 0 < n < |inputs| && inputs[n].cmd == inputs[n - 1].cmd
    ensures !IsNew(Before(Start(hover), inputs, n).lastSeq, inputs[n].cmd)
  {
    hide IsNew, Tick;
    JudgedAfter(Before(Start(hover), inputs, n - 1), inputs[n - 1]);
  }

  /**
   Only two causes let the latched loop accept a stale command: the tick's check came late after
   the read before it, or the command's own way into place was slow; together beyond the timeout.
   */
  lemma LeavesOnlyHeldUp(hover: Us, mismatch: bool, pubs: seq<Server.Publication>, ticks: seq<TimedTick>, n: nat)
    requires Server.Sorted(pubs) && Timely(ticks) && n < |ticks|
    ensures var inputs := Inputs(pubs, ticks, mismatch);
            var l := Before(Start(hover), inputs, n);
            l.failsafe && StaleNow(inputs[n]) && IsNew(l.lastSeq, inputs[n].cmd) ==>
              var seen := Server.SeenAt(pubs, ticks[n].readAt);
              n > 0 && seen != [] && HeldUp(seen[|seen| - 1], ticks[n - 1].readAt, ticks[n].checkAt)
  {
    hide Tick, IsNew, CommandAt, AgeAt, HeldUp;
    var inputs := Inputs(pubs, ticks, mismatch);
    var l := Before(Start(hover), inputs, n);
    assert inputs[n] == InputAt(pubs, ticks[n], mismatch);
    if n > 0 && IsNew(l.lastSeq, inputs[n].cmd) {
      assert inputs[n - 1] == InputAt(pubs, ticks[n - 1], mismatch);
      JudgedAfter(Before(Start(hover), inputs, n - 1), inputs[n - 1]);
      NewMeansFresh(pubs, l.lastSeq, ticks[n - 1].readAt, ticks[n].readAt, ticks[n].lookAt, ticks[n].checkAt);
    }
  }

  lemma PromptIsNotHeldUp(pubs: seq<Server.Publication>, ticks: seq<TimedTick>, delay: real, n: nat)
    requires Prompt(pubs, delay) && Paced(ticks, delay) && 0 < n < |ticks|
    ensures var seen := Server.SeenAt(pubs, ticks[n].readAt);
            seen != [] ==> !HeldUp(seen[|seen| - 1], ticks[n - 1].readAt, ticks[n].checkAt)
  {
    hide Server.SeenAt;
    var seen := Server.SeenAt(pubs, ticks[n].readAt);
    if seen != [] {
      assert seen[|seen| - 1] == pubs[|seen| - 1];
    }
  }

  /** A paced run on a prompt link accepts no stale command while latched, into no mode. */
  lemma PacedAcceptsNone(hover: Us, mismatch: bool, pubs: seq<Server.Publication>, ticks: seq<TimedTick>,
                         delay: real, n: nat)
    requires Server.Sorted(pubs) && Prompt(pubs, delay) && Paced(ticks, delay) && n < |ticks|
    ensures var inputs := Inputs(pubs, ticks, mismatch);
            var l := Before(Start(hover), inputs, n);
            !StaleAccept(l, inputs[n]) && !StaleLeave(l, inputs[n])
  {
    hide Tick, IsNew, Inputs, Server.SeenAt, HeldUp, Prompt;
    var inputs := Inputs(pubs, ticks, mismatch);
    var l := Before(Start(hover), inputs, n);
    if l.failsafe && StaleNow(inputs[n]) && IsNew(l.lastSeq, inputs[n].cmd) {
      LeavesOnlyHeldUp(hover, mismatch, pubs, ticks, n);
      PromptIsNotHeldUp(pubs, ticks, delay, n);
    }
  }

  /**
   Fail-closed over every paced run: whenever the time step runs in Tracking or Takeoff, hover is
   calibrated, the sink is healthy with no tuning mismatch, and the command is at most 0.5 s old.
   */
  lemma FailClosed(hover: Us, mismatch: bool, pubs: seq<Server.Publication>, ticks: seq<TimedTick>,
                   delay: real, n: nat)
    requires Server.Sorted(pubs) && Prompt(pubs, delay) && Paced(ticks, delay) && n < |ticks|
    ensures var b := StepState(hover, Inputs(pubs, ticks, mismatch), n);
            Powered(b.mode) ==>
              && b.hover != 0 && ticks[n].sinkOk && !mismatch
              && AgeAt(pubs, ticks[n].lookAt, ticks[n].checkAt) <= CMD_TIMEOUT_S
  {
    hide Tick, Server.SeenAt, BeforeStep, StaleAccept, StaleLeave, Paced, Prompt;
    var inputs := Inputs(pubs, ticks, mismatch);
    forall k | 0 <= k < |inputs| ensures !StaleAccept(Before(Start(hover), inputs, k), inputs[k]) {
      PacedAcceptsNone(hover, mismatch, pubs, ticks, delay, k);
    }
    forall k | 0 <= k < |inputs| ensures inputs[k].mismatch == mismatch {
      assert inputs[k] == InputAt(pubs, ticks[k], mismatch);
    }
    FailClosedIff(hover, mismatch, inputs);
    assert Safe(BeforeStep(Before(Start(hover), inputs, n), inputs[n]), inputs[n]);
    assert inputs[n] == InputAt(pubs, ticks[n], mismatch);
  }

  /** No command comes into place after a time. */
  ghost predicate SilentAfter(pubs: seq<Server.Publication>, t: real) {
    forall i | 0 <= i < |pubs| :: pubs[i].visible <= t
  }

  lemma SilentSeesAll(pubs: seq<Server.Publication>, t: real, t': real)
    requires SilentAfter(pubs, t) && t <= t'
    ensures Server.SeenAt(pubs, t') == pubs
  {
  }

  lemma {:induction false} TimesGrow(ticks: seq<TimedTick>, e: nat, n: nat)
    requires Timely(ticks) && e <= n < |ticks|
    ensures ticks[e].readAt <= ticks[n].readAt && ticks[e].checkAt <= ticks[n].checkAt
  {
    if e < n {
      TimesGrow(ticks, e, n - 1);
      assert ticks[n - 1].checkAt <= ticks[n].readAt;
    }
  }

  /** The link is silent from the read of tick `e` on, and stale at its check. */
  ghost predicate SilentFrom(pubs: seq<Server.Publication>, tick: TimedTick) {
    SilentAfter(pubs, tick.readAt) && AgeAt(pubs, tick.lookAt, tick.checkAt) > CMD_TIMEOUT_S
  }

  /** In a silent, stale link every tick is stale and brings nothing new. */
  lemma SilentInput(pubs: seq<Server.Publication>, ticks: seq<TimedTick>, e: nat, n: nat)
    requires Timely(ticks) && e <= n < |ticks| && SilentFrom(pubs, ticks[e])
    ensures AgeAt(pubs, ticks[n].lookAt, ticks[n].checkAt) > CMD_TIMEOUT_S
    ensures CommandAt(pubs, ticks[n].readAt) == CommandAt(pubs, ticks[e].readAt)
  {
    hide Server.SeenAt;
    TimesGrow(ticks, e, n);
    var t := ticks[e].readAt;
    SilentSeesAll(pubs, t, t);
    SilentSeesAll(pubs, t, ticks[n].readAt);
    SilentSeesAll(pubs, t, ticks[e].lookAt);
    SilentSeesAll(pubs, t, ticks[n].lookAt);
  }

  lemma DeadTick(hover: Us, mismatch: bool, pubs: seq<Server.Publication>, ticks: seq<TimedTick>, e: nat, k: nat)
    requires Timely(ticks) && e <= k < |ticks| && SilentFrom(pubs, ticks[e])
    ensures var inputs := Inputs(pubs, ticks, mismatch);
            StaleNow(inputs[k]) && (k > e ==> !IsNew(Before(Start(hover), inputs, k).lastSeq, inputs[k].cmd))
  {
    hide IsNew, Tick, Before, Inputs, AgeAt, CommandAt, Timely, SilentFrom, Start;
    var inputs := Inputs(pubs, ticks, mismatch);
    assert inputs[k] == InputAt(pubs, ticks[k], mismatch);
    SilentInput(pubs, ticks, e, k);
    if k > e {
      assert inputs[k - 1] == InputAt(pubs, ticks[k - 1], mismatch);
      SilentInput(pubs, ticks, e, k - 1);
      OldCommandIsOld(hover, inputs, k);
    }
  }

  /** After the last command a stale link is dead. */
  lemma SilentIsDead(hover: Us, mismatch: bool, pubs: seq<Server.Publication>, ticks: seq<TimedTick>, e: nat, n: nat)
    requires Timely(ticks) && e <= n < |ticks| && SilentFrom(pubs, ticks[e])
    ensures DeadLink(hover, Inputs(pubs, ticks, mismatch), e, n)
  {
    hide IsNew, Tick, Before, Inputs, InputAt, Timely, SilentFrom, Start, StaleNow;
    forall k | e <= k <= n
      ensures StaleNow(Inputs(pubs, ticks, mismatch)[k])
      ensures k > e ==> !IsNew(Before(Start(hover), Inputs(pubs, ticks, mismatch), k).lastSeq,
                               Inputs(pubs, ticks, mismatch)[k].cmd)
    {
      DeadTick(hover, mismatch, pubs, ticks, e, k);
    }
  }

  /**
   Bounded-time disarm over every paced run: if no command is received after the read of a stale
   tick, then from five seconds of controller time on every output is disarmed at minimum
   throttle, whatever mode, arm state and set-points the loop was in.
   */
  lemma BoundedDisarm(hover: Us, mismatch: bool, pubs: seq<Server.Publication>, ticks: seq<TimedTick>,
                      delay: real, e: nat, n: nat)
    requires Server.Sorted(pubs) && Prompt(pubs, delay) && Paced(ticks, delay) && e <= n < |ticks|
    requires SilentFrom(pubs, ticks[e])
    requires Elapsed(Inputs(pubs, ticks, mismatch), e, n) >= FC.DISARM_TIME_S
    ensures var out := After(hover, Inputs(pubs, ticks, mismatch), n).cmd;
            !FC.Armed(out) && out.throttle == DRONE_MIN
  {
    hide Elapsed, FC.Armed, Before, StepState, After, StaleLeave, StaleAccept, Server.SeenAt, DeadLink, Prompt;
    var inputs := Inputs(pubs, ticks, mismatch);
    assert inputs[e] == InputAt(pubs, ticks[e], mismatch);
    if StepState(hover, inputs, e).mode != FC.LandSafely {
      var k := StalePowerHasCause(hover, inputs, e);
      PacedAcceptsNone(hover, mismatch, pubs, ticks, delay, k);
    }
    SilentIsDead(hover, mismatch, pubs, ticks, e, n);
    DisarmBoundIff(hover, inputs, e, n);
  }

  // ------------------------------------------------------------- sequence numbers

  /**
   The frames the loop sees carry the numbers of the indices `idx` modulo the space; each index is
   at least the one seen before and at most half the space ahead of it. Before tick `first` there is no frame.
   */
  ghost predicate Numbered(inputs: seq<Input>, idx: seq<nat>, first: nat) {
    && |idx| == |inputs|
    && (forall n | 0 <= n < |inputs| && n < first :: inputs[n].cmd == None)
    && (forall n | first <= n < |inputs| :: inputs[n].cmd.Some? && inputs[n].cmd.value.seqNo == idx[n] % CS.CMD_SEQ_MOD)
    && (forall n | first < n < |inputs| :: idx[n - 1] <= idx[n] <= idx[n - 1] + CS.CMD_SEQ_HALF)
  }

  lemma SeqAfter(l: Loop, i: Input)
    ensures Tick(l, i).lastSeq == if IsNew(l.lastSeq, i.cmd) then Some(i.cmd.value.seqNo) else l.lastSeq
  {
    hide ApplyCommand, FC.UpdateTimeStep, FC.SetControlMode, IsNew;
  }

  /**
   Refinement over a whole run of the loop: a sampled frame is applied exactly when its unbounded
   index is larger than the one sampled before, through any number of wraps, or it is the first.
   */
  lemma {:induction false} AppliesExactlyTheNew(hover: Us, inputs: seq<Input>, idx: seq<nat>, first: nat, n: nat)
    requires Numbered(inputs, idx, first) && n < |inputs|
    ensures var l := Before(Start(hover), inputs, n);
            && l.lastSeq == (if n <= first then None else Some(idx[n - 1] % CS.CMD_SEQ_MOD))
            && (IsNew(l.lastSeq, inputs[n].cmd) <==> n == first || (n > first && idx[n] > idx[n - 1]))
  {
    hide Tick, CS.MaskAdvances, CS.SeqAdvances;
    if n > 0 {
      AppliesExactlyTheNew(hover, inputs, idx, first, n - 1);
      SeqAfter(Before(Start(hover), inputs, n - 1), inputs[n - 1]);
    }
    if n > first {
      CS.AcceptedIffNew(idx[n - 1], idx[n]);
      CS.SidesAgree(idx[n - 1] % CS.CMD_SEQ_MOD, idx[n] % CS.CMD_SEQ_MOD);
    }
  }

  // ------------------------------------------------------------- operator commands

  /** In Manual on a healthy link the next output of an armed drone is exactly the operator's sticks. */
  lemma ManualPassesThrough(l: Loop, i: Input, roll: real, pitch: real, yawRate: real, throttle: real)
    requires IsNew(l.lastSeq, i.cmd) && !StaleNow(i) && i.sinkOk
    requires i.cmd.value.desiredMode == 0 && i.cmd.value.arm == Some(true)
    requires i.cmd.value.setpoints == CR.Setpoints(Some(roll), Some(pitch), Some(yawRate), Some(throttle))
    ensures var out := Tick(l, i).fc.cmd;
            && FC.Armed(out)
            && out.roll == RM.NormalizedAxisToPwm(roll) && out.pitch == RM.NormalizedAxisToPwm(pitch)
            && out.yaw == RM.YawRateToPwm(yawRate) && out.throttle == RM.ThrottleToPwm(throttle)
  {
    hide CS.MaskAdvances, RM.NormalizedAxisToPwm, RM.YawRateToPwm, RM.ThrottleToPwm;
  }

  lemma LandKeepsDisarmed(s: FC.State, dt: real)
    requires !FC.Armed(s.cmd)
    ensures !FC.Armed(FC.RunLandSafely(s, dt).cmd)
  {
    hide FC.LandStart;
  }

  lemma RunKeepsDisarmed(s: FC.State, dt: real)
    requires !FC.Armed(s.cmd)
    ensures FC.Armed(FC.RunMode(s, dt).cmd) <==> s.mode == FC.Takeoff && s.hover != 0
  {
    hide FC.RunLandSafely, FC.AltHoldThrottle, FC.YawFor, FC.PitchFor, FC.Deadbanded, FC.ForwardFor, FC.TakeoffRamp;
    LandKeepsDisarmed(FC.SetControlMode(s, FC.LandSafely), dt);
    LandKeepsDisarmed(s, dt);
  }

  lemma CommandSetsArm(s: FC.State, cmd: CR.CommandFrame, sinkOk: bool, mismatch: bool)
    requires cmd.arm.Some?
    ensures ApplyCommand(s, cmd, sinkOk, mismatch).cmd.aux1 == FC.Switch(cmd.arm.value)
  {
    hide RM.NormalizedAxisToPwm, RM.YawRateToPwm, RM.ThrottleToPwm, FC.SetControlMode;
  }

  lemma ChecksKeepChannels(l: Loop, i: Input)
    ensures AfterSinkCheck(AfterFailsafe(l, i), i).fc.cmd == l.fc.cmd
  {
  }

  /** A disarm command disarms the very next output, except exactly when a calibrated takeoff is running. */
  lemma DisarmIff(l: Loop, i: Input)
    requires IsNew(l.lastSeq, i.cmd) && i.cmd.value.arm == Some(false)
    ensures var b, out := BeforeStep(l, i).fc, Tick(l, i).fc.cmd;
            && (!FC.Armed(out) <==> !(b.mode == FC.Takeoff && b.hover != 0))
            && (!FC.Armed(out) ==> out.throttle == DRONE_MIN)
  {
    hide CS.MaskAdvances, FC.RunMode, ApplyCommand, FC.SetControlMode;
    CommandSetsArm(l.fc, i.cmd.value, i.sinkOk, i.mismatch);
    ChecksKeepChannels(AfterCommand(l, i), i);
    var b := BeforeStep(l, i).fc;
    assert !FC.Armed(b.cmd);
    var d := FC.ClampedDt(i.dt);
    RunKeepsDisarmed(b.(now := b.now + d), d);
  }

  /** The board receives the controller's channels as they are: the encoder's clamp never changes an output. */
  lemma OutputReachesBoard(l: Loop, i: Input)
    ensures var out := Tick(l, i).fc.cmd;
            MF.RcChannels(Sink.RcFrame(out).payload)
            == [out.roll, out.pitch, out.throttle, out.yaw, out.aux1, out.aux2, out.aux3, out.aux4]
  {
    hide BeforeStep, FC.UpdateTimeStep, MF.RcChannels, MF.RcPayload;
    FS.OutputIsSane(BeforeStep(l, i).fc, i.dt);
    Sink.BoardSeesChannels(Tick(l, i).fc.cmd);
  }

  // ------------------------------------------------------------- without the pacing

  /** Each tick's dt is the time since the tick before. */
  ghost predicate OnClock(ticks: seq<TimedTick>) {
    forall n | 0 < n < |ticks| :: ticks[n].dt == ticks[n].readAt - ticks[n - 1].readAt
  }

  /**
   A hold-up on a new link: a tick at `first`, the next one `gap` later, and one command whose
   receive time is `time` and which comes into place at `visible`, between the two ticks.
   */
  datatype HoldUp = HoldUp(time: real, visible: real, first: real, gap: real) {
    predicate TooLong() {
      0.0 < time <= visible && 0.0 <= first < visible <= first + gap && first + gap - time > CMD_TIMEOUT_S
    }
  }

  /** A tick comes 0.71 s after the one before. */
  const TICK_HELD_UP := HoldUp(1.01, 1.01, 1.0, 0.71)

  /** Ticks come every 20 ms, and the server's worker takes 0.6 s from reading the time to storing the command. */
  const WORKER_HELD_UP := HoldUp(1.0, 1.6, 1.59, 0.02)

  /** The one command of the link, armed and with throttle 0.8. */
  function LateCommand(mode: int): CR.CommandFrame {
    CR.CommandFrame(0, 0.0, mode, Some(true), CR.Setpoints(None, None, None, Some(0.8)), None)
  }

  function LatePubs(h: HoldUp, mode: int): seq<Server.Publication> {
    [Server.Publication(LateCommand(mode), h.time, h.visible)]
  }

  function TickAt(dt: real, t: real): TimedTick {
    TimedTick(dt, t, t, t, true)
  }

  /** The two ticks of the hold-up, and `n` more, 20 ms apart. */
  function LateTicks(h: HoldUp, n: nat): (r: seq<TimedTick>)
    requires h.TooLong()
    ensures |r| == n + 2
    ensures r[0] == TickAt(0.0, h.first) && r[1] == TickAt(h.gap, h.first + h.gap)
    ensures forall k | 1 < k < n + 2 :: r[k] == TickAt(0.02, h.first + h.gap + 0.02 * (k - 1) as real)
  {
    seq(n + 2, k requires 0 <= k =>
      if k == 0 then TickAt(0.0, h.first)
      else TickAt(if k == 1 then h.gap else 0.02, h.first + h.gap + 0.02 * (k - 1) as real))
  }

  lemma LateTicksOnClock(h: HoldUp, n: nat)
    requires h.TooLong()
    ensures Timely(LateTicks(h, n)) && OnClock(LateTicks(h, n))
  {
    hide LateTicks;
    var r := LateTicks(h, n);
    forall k | 0 < k < |r| ensures r[k].dt == r[k].readAt - r[k - 1].readAt > 0.0 {
      if k > 1 {
        assert r[k].readAt == h.first + h.gap + 0.02 * (k - 1) as real;
        assert k > 2 ==> r[k - 1].readAt == h.first + h.gap + 0.02 * (k - 2) as real;
      }
    }
  }

  function LateRun(h: HoldUp, mode: int, n: nat): seq<Input>
    requires h.TooLong()
  {
    Inputs(LatePubs(h, mode), LateTicks(h, n), false)
  }

  lemma LatePubsAre(h: HoldUp, mode: int)
    requires h.TooLong()
    ensures var pubs := LatePubs(h, mode);
            && Server.Sorted(pubs) && Server.SeenAt(pubs, h.first) == [] && Server.SeenAt(pubs, h.first + h.gap) == pubs
  {
    assert LatePubs(h, mode)[..0] == [];
  }

  lemma LateInputs(h: HoldUp, mode: int, n: nat)
    requires h.TooLong()
    ensures var inputs := LateRun(h, mode, n);
            && |inputs| == n + 2 && inputs[0] == Input(0.0, None, Server.NEVER, true, false)
            && inputs[1] == Input(h.gap, Some(LateCommand(mode)), h.first + h.gap - h.time, true, false)
            && forall k | 1 < k < n + 2 :: inputs[k].dt == 0.02 && inputs[k].sinkOk
  {
    hide Server.SeenAt;
    LatePubsAre(h, mode);
    var pubs, ticks, inputs := LatePubs(h, mode), LateTicks(h, n), LateRun(h, mode, n);
    assert inputs[0] == InputAt(pubs, ticks[0], false) && inputs[1] == InputAt(pubs, ticks[1], false);
    forall k | 1 < k < n + 2 ensures inputs[k].dt == 0.02 && inputs[k].sinkOk {
      assert inputs[k] == InputAt(pubs, ticks[k], false);
    }
  }

  lemma FirstTickLatches(hover: Us, i: Input)
    requires i == Input(0.0, None, Server.NEVER, true, false)
    ensures var l := Tick(Start(hover), i);
            && l.failsafe && !l.sinkDegraded && l.lastSeq == None && l.fc.hover == FC.CalibratedHover(hover)
            && l.fc.mode == FC.LandSafely
  {
    hide FC.UpdateTimeStep;
    StepIsSound(BeforeStep(Start(hover), i).fc, 0.0);
  }

  /** The loop before the second tick, and what that tick sees. */
  lemma LateState(h: HoldUp, mode: int, n: nat)
    requires h.TooLong()
    ensures var inputs := LateRun(h, mode, n);
            && |inputs| == n + 2
            && inputs[1] == Input(h.gap, Some(LateCommand(mode)), h.first + h.gap - h.time, true, false)
            && var l := Before(Start(1500), inputs, 1);
               l.failsafe && !l.sinkDegraded && l.lastSeq == None && l.fc.hover == 1500 && l.fc.mode == FC.LandSafely
  {
    hide Tick, LateRun;
    LateInputs(h, mode, n);
    FirstTickLatches(1500, LateRun(h, mode, n)[0]);
    assert Before(Start(1500), LateRun(h, mode, n), 0) == Start(1500);
  }

  /**
   Every hold-up of the tick or of the worker that makes the command too old flies on a stale
   link: the second tick takes the Tracking command and runs it. Both kinds of hold-up exist.
   */
  lemma HoldUpIsUnsafe(h: HoldUp)
    requires h.TooLong()
    ensures var inputs := LateRun(h, 1, 0);
            var l := Before(Start(1500), inputs, 1);
            StaleAccept(l, inputs[1]) && !Safe(BeforeStep(l, inputs[1]), inputs[1])
    ensures Timely(LateTicks(h, 0)) && OnClock(LateTicks(h, 0))
    ensures TICK_HELD_UP.TooLong() && TICK_HELD_UP.visible == TICK_HELD_UP.time
    ensures WORKER_HELD_UP.TooLong() && WORKER_HELD_UP.gap == 0.02
  {
    hide Tick, BeforeStep, LateRun, Before, Safe;
    LateState(h, 1, 0);
    LateTicksOnClock(h, 0);
    StaleAcceptIsUnsafe(Before(Start(1500), LateRun(h, 1, 0), 1), LateRun(h, 1, 0)[1]);
  }

  /** The late Manual command is accepted stale, with power on. */
  lemma LateManual(h: HoldUp, n: nat)
    requires h.TooLong()
    ensures var inputs := LateRun(h, 0, n);
            && |inputs| == n + 2 && StaleLeave(Before(Start(1500), inputs, 1), inputs[1])
            && var b := StepState(1500, inputs, 1);
               b.mode == FC.Manual && PowerOn(b) && FC.Armed(b.cmd) && b.cmd.throttle == 1800
  {
    hide FC.UpdateTimeStep, CS.MaskAdvances, Before, Tick, LateRun, Inputs;
    LateState(h, 0, n);
  }

  lemma {:induction false} LateElapsed(h: HoldUp, n: nat, k: nat)
    requires h.TooLong() && 1 <= k < n + 2
    ensures |LateRun(h, 0, n)| == n + 2
    ensures Elapsed(LateRun(h, 0, n), 1, k) == FC.ClampedDt(h.gap) + 0.02 * (k - 1) as real
  {
    LateInputs(h, 0, n);
    hide LateRun;
    if k > 1 {
      LateElapsed(h, n, k - 1);
      assert FC.ClampedDt(0.02) == 0.02;
    }
  }

  lemma LateSinkHolds(h: HoldUp, n: nat)
    requires h.TooLong()
    ensures |LateRun(h, 0, n)| == n + 2 && forall k | 1 < k <= n + 1 :: !SinkTrips(LateRun(h, 0, n), k)
  {
    hide LateRun;
    LateInputs(h, 0, n);
  }

  lemma StickKept(c: Command)
    requires FC.Armed(c) && c.throttle == 1800
    ensures FC.Armed(FC.ClampChannels(c)) && FC.ClampChannels(c).throttle == 1800
  {
  }

  /** Armed in Manual on a dead link, the throttle stays where the stick was. */
  lemma StickStays(hover: Us, inputs: seq<Input>, e: nat, n: nat)
    requires e <= n < |inputs| && DeadLink(hover, inputs, e, n)
    requires forall k | e < k <= n :: !SinkTrips(inputs, k)
    ensures var b, a := StepState(hover, inputs, e), After(hover, inputs, n);
            b.mode == FC.Manual && FC.Armed(b.cmd) && b.cmd.throttle == 1800 ==>
              FC.Armed(a.cmd) && a.cmd.throttle == 1800
  {
    hide *;
    var b := StepState(hover, inputs, e);
    if b.mode == FC.Manual && FC.Armed(b.cmd) && b.cmd.throttle == 1800 {
      FliesOn(hover, inputs, e, n);
      StickKept(b.cmd);
    }
  }

  lemma LateIsSilent(h: HoldUp, n: nat)
    requires h.TooLong()
    ensures |LateRun(h, 0, n)| == n + 2 && DeadLink(1500, LateRun(h, 0, n), 1, n + 1)
  {
    hide DeadLink, Server.SeenAt;
    var pubs, ticks := LatePubs(h, 0), LateTicks(h, n);
    LatePubsAre(h, 0);
    LateTicksOnClock(h, n);
    assert ticks[1] == TickAt(h.gap, h.first + h.gap);
    SilentIsDead(1500, false, pubs, ticks, 1, n + 1);
  }

  lemma LateStick(h: HoldUp, n: nat)
    requires h.TooLong()
    ensures |LateRun(h, 0, n)| == n + 2
    ensures var a := After(1500, LateRun(h, 0, n), n + 1); FC.Armed(a.cmd) && a.cmd.throttle == 1800
  {
    hide *;
    LateSinkHolds(h, n);
    LateManual(h, n);
    LateIsSilent(h, n);
    StickStays(1500, LateRun(h, 0, n), 1, n + 1);
  }

  /**
   After every such hold-up the disarm bound fails for good: the Manual command is
   accepted stale, the link is dead from then on, and the output is armed at 1800 for ever,
   however much controller time goes by.
   */
  lemma NeverDisarms(h: HoldUp, n: nat)
    requires h.TooLong()
    ensures var inputs := LateRun(h, 0, n);
            && |inputs| == n + 2 && DeadLink(1500, inputs, 1, n + 1)
            && Elapsed(inputs, 1, n + 1) == FC.ClampedDt(h.gap) + 0.02 * n as real
            && FC.Armed(After(1500, inputs, n + 1).cmd) && After(1500, inputs, n + 1).cmd.throttle == 1800
  {
    hide *;
    LateElapsed(h, n, n + 1);
    LateIsSilent(h, n);
    LateStick(h, n);
  }
}
