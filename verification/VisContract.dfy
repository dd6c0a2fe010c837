/** The vision message: built from a pipeline result, validated by the backend, trusted by the flight controller. */
module VisContract {
  import opened Wrappers
  import opened VisionPipeline
  import opened VisionRuns
  import CR = CommandReceiver
  import CL = ControlLoop
  import FC = FlightController
  import FS = FlightSafety
  import JsonText
  import Schema = CmdSchema

  const NON_TRACKING_ZERO_EPS := 0.000001

  datatype VisPayload = VisPayload(seqNo: int, timestamp: real, trackingState: int,
                                   locX: real, locY: real, boundW: real, boundH: real, confidence: real)

  datatype VisError = OutOfRange | NonZeroOutsideTracking

  function StateCode(s: VisState): int {
    match s case NoTarget => 1 case TargetDetected => 2 case Tracking => 3 case Searching => 4
  }

  function Within1(x: real): real {
    Max(-1.0, Min(1.0, x))
  }

  function BuildVisPayload(seqNo: int, timestamp: real, r: TrackerResult): VisPayload {
    if r.state != Tracking then VisPayload(seqNo, timestamp, StateCode(r.state), 0.0, 0.0, 0.0, 0.0, 0.0)
    else VisPayload(seqNo, timestamp, 3, Within1((r.bbox.cx - 0.5) * 2.0), Within1((0.5 - r.bbox.cy) * 2.0),
                    Clamp01(r.bbox.w), Clamp01(r.bbox.h), Clamp01(r.conf))
  }

  // ------------------------------------------------------------------ validation

  predicate InRange(v: VisPayload) {
    && 1 <= v.trackingState <= 4
    && -1.0 <= v.locX <= 1.0 && -1.0 <= v.locY <= 1.0
    && 0.0 <= v.boundW <= 1.0 && 0.0 <= v.boundH <= 1.0 && 0.0 <= v.confidence <= 1.0
  }

  predicate NearZero(x: real) {
    -NON_TRACKING_ZERO_EPS <= x <= NON_TRACKING_ZERO_EPS
  }

  predicate NearZeros(v: VisPayload) {
    NearZero(v.locX) && NearZero(v.locY) && NearZero(v.boundW) && NearZero(v.boundH) && NearZero(v.confidence)
  }

  function Validated(v: VisPayload): Result<VisPayload, VisError> {
    if !InRange(v) then Err(OutOfRange)
    else if v.trackingState == 3 then Ok(v)
    else if !NearZeros(v) then Err(NonZeroOutsideTracking)
    else Ok(VisPayload(v.seqNo, v.timestamp, v.trackingState, 0.0, 0.0, 0.0, 0.0, 0.0))
  }

  method ValidateVisMessage(v: VisPayload) returns (r: Result<VisPayload, VisError>)
    ensures r == Validated(v)
    ensures r != Err(OutOfRange)
       <==> && 1 <= v.trackingState <= 4 && -1.0 <= v.locX <= 1.0 && -1.0 <= v.locY <= 1.0
            && 0.0 <= v.boundW <= 1.0 && 0.0 <= v.boundH <= 1.0 && 0.0 <= v.confidence <= 1.0
    ensures r == Err(NonZeroOutsideTracking)
       <==> && r != Err(OutOfRange) && v.trackingState != 3
            && (v.locX < -0.000001 || v.locX > 0.000001 || v.locY < -0.000001 || v.locY > 0.000001
                || v.boundW > 0.000001 || v.boundH > 0.000001 || v.confidence > 0.000001)
    ensures r.Ok? ==> r.value == if v.trackingState == 3 then v
                                 else VisPayload(v.seqNo, v.timestamp, v.trackingState, 0.0, 0.0, 0.0, 0.0, 0.0)
  {
    if v.trackingState !in {1, 2, 3, 4} {
      return Err(OutOfRange);
    }
    var locX, locY, boundW, boundH, confidence := v.locX, v.locY, v.boundW, v.boundH, v.confidence;
    if !(-1.0 <= locX <= 1.0) || !(-1.0 <= locY <= 1.0) || !(0.0 <= boundW <= 1.0) || !(0.0 <= boundH <= 1.0)
       || !(0.0 <= confidence <= 1.0) {
      return Err(OutOfRange);
    }
    if v.trackingState != 3 {
      if !NearZero(locX) || !NearZero(locY) || !NearZero(boundW) || !NearZero(boundH) || !NearZero(confidence) {
        return Err(NonZeroOutsideTracking);
      }
      locX, locY, boundW, boundH, confidence := 0.0, 0.0, 0.0, 0.0, 0.0;
    }
    return Ok(VisPayload(v.seqNo, v.timestamp, v.trackingState, locX, locY, boundW, boundH, confidence));
  }

  /** What validation lets through is in range, zero outside tracking, hardly moved, and passes again unchanged. */
  lemma ValidatedIsStable(v: VisPayload)
    requires Validated(v).Ok?
    ensures var w := Validated(v).value;
            && Validated(w) == Ok(w)
            && (w.trackingState != 3 ==> w.confidence == w.locX == w.locY == w.boundW == w.boundH == 0.0)
            && NearZero(w.locX - v.locX) && NearZero(w.confidence - v.confidence)
  {
  }

  lemma ResultIsPlausible(c: Config, frames: Frames, n: nat)
    requires n < |frames|
    ensures var r := ResultAt(c, frames, n);
            0.0 <= r.conf <= 1.0 && (r.state != Tracking ==> r == ZeroResult(r.state))
  {
    hide Process;
    AlwaysTidy(c, frames, n);
    ProcessTidies(c, Before(c, frames, n), frames[n]);
  }

  /** Every pipeline result of every run gives a message that validation accepts unchanged. */
  lemma PipelineMessagesPass(c: Config, frames: Frames, n: nat, seqNo: int, timestamp: real)
    requires n < |frames|
    ensures var v := BuildVisPayload(seqNo, timestamp, ResultAt(c, frames, n));
            Validated(v) == Ok(v) && v.confidence == ResultAt(c, frames, n).conf
  {
    hide ResultAt;
    ResultIsPlausible(c, frames, n);
  }

  // ----------------------------------------------------------- confidence contract

  /** Every detection the detector offers is at least as confident as the floor. */
  predicate ConfidentDetections(c: Config, frames: Frames) {
    forall i | 0 <= i < |frames| :: frames[i].best.Some? ==> Clamp01(frames[i].best.value.confidence) >= c.floor
  }

  predicate Confident(c: Config, p: Pipe) {
    && (p.state == Tracking ==> p.conf >= c.floor)
    && (p.lastDetection.Some? ==> Clamp01(p.lastDetection.value.confidence) >= c.floor)
  }

  lemma StaysConfident(c: Config, p: Pipe, f: Frame)
    requires Confident(c, p) && HasSize(f) && (f.best.Some? ==> Clamp01(f.best.value.confidence) >= c.floor)
    ensures var (q, r) := Process(c, p, f); Confident(c, q) && (r.state == Tracking ==> r.conf >= c.floor)
  {
    hide Normalize, Clamp01, UpdateTracking, Iou, Scaled;
    if p.state == Tracking {
      TrackingStaysConfident(c, Remember(c, p, f), f);
    }
  }

  lemma TrackingStaysConfident(c: Config, p: Pipe, f: Frame)
    requires p.state == Tracking && Confident(c, p) && HasSize(f)
    requires f.best.Some? ==> Clamp01(f.best.value.confidence) >= c.floor
    ensures var (q, r) := UpdateTracking(c, p, f); Confident(c, q) && (r.state == Tracking ==> r.conf >= c.floor)
  {
    hide Normalize, Iou, Scaled, Clamp01, ShouldReinit;
  }

  lemma {:induction false} AlwaysConfident(c: Config, frames: Frames, n: nat)
    requires ConfidentDetections(c, frames) && n <= |frames|
    ensures Confident(c, Before(c, frames, n))
  {
    hide Process;
    if n > 0 {
      AlwaysConfident(c, frames, n - 1);
      StaysConfident(c, Before(c, frames, n - 1), frames[n - 1]);
    }
  }

  function ReceivedTracking(v: VisPayload): CR.Tracking {
    CR.Tracking(v.trackingState, v.locX, v.locY, v.boundW, v.boundH, v.confidence, v.seqNo, v.timestamp)
  }

  /** The backend's snapshot of a validated message: numerals that denote its numbers. */
  predicate Denotes(vis: Schema.VisSnapshot, v: VisPayload) {
    && vis.trackingState == v.trackingState && vis.seqNo == v.seqNo
    && JsonText.NumeralValue(vis.locX) == v.locX && JsonText.NumeralValue(vis.locY) == v.locY
    && JsonText.NumeralValue(vis.boundW) == v.boundW && JsonText.NumeralValue(vis.boundH) == v.boundH
    && JsonText.NumeralValue(vis.confidence) == v.confidence && JsonText.NumeralValue(vis.timestamp) == v.timestamp
  }

  /** What the flight controller parses out of the printed command that carries the snapshot. */
  function OverTheWire(content: Schema.Content): Option<CR.CommandFrame> {
    CR.ParseCmd(JsonText.Print(JsonText.Obj(Schema.PayloadMembers(content))))
  }

  lemma TrackingArrives(content: Schema.Content, v: VisPayload)
    requires content.tracking.Some? && Denotes(content.tracking.value, v)
    ensures OverTheWire(content).Some? <==> Schema.Receivable(content)
    ensures OverTheWire(content).Some? ==> OverTheWire(content).value.tracking == Some(ReceivedTracking(v))
  {
    hide CR.ParseCmd, JsonText.Print, JsonText.NumeralValue, Schema.PayloadMembers, Schema.Receivable;
    Schema.RoundTrip(content);
  }

  /** The controller's message is a confident target, and Tracking ticks follow it exactly while it is not stale. */
  ghost predicate Followed(t: FC.State) {
    && t.msg.state == FC.OnTarget && t.msg.confidence >= FC.MIN_CONFIDENCE
    && (FC.TargetValid(t) <==> !FC.Stale(t))
    && (t.mode == FC.Tracking && FS.Calibrated(t.hover) ==>
          forall dt: real :: FC.UpdateTimeStep(t, dt).seen == FC.OnTarget
                             <==> 0.0 <= t.msgTime && t.now + FC.ClampedDt(dt) - t.msgTime <= 0.8)
  }

  lemma ConfidentMessage(c: Config, frames: Frames, n: nat, seqNo: int, timestamp: real, s: FC.State)
    requires ConfidentDetections(c, frames) && n < |frames|
    requires c.floor >= FC.MIN_CONFIDENCE && ResultAt(c, frames, n).state == Tracking
    ensures var v := BuildVisPayload(seqNo, timestamp, ResultAt(c, frames, n));
            var t := CL.ApplyTracking(s, Some(ReceivedTracking(v)));
            Validated(v) == Ok(v) && Followed(t)
  {
    hide Process, FC.UpdateTimeStep, FC.ClampedDt;
    AlwaysConfident(c, frames, n);
    StaysConfident(c, Before(c, frames, n), frames[n]);
    PipelineMessagesPass(c, frames, n, seqNo, timestamp);
    var t := CL.ApplyTracking(s, Some(ReceivedTracking(BuildVisPayload(seqNo, timestamp, ResultAt(c, frames, n)))));
    if t.mode == FC.Tracking && FS.Calibrated(t.hover) {
      forall dt: real
        ensures FC.UpdateTimeStep(t, dt).seen == FC.OnTarget
           <==> 0.0 <= t.msgTime && t.now + FC.ClampedDt(dt) - t.msgTime <= 0.8
      {
        FS.FollowsIff(t, dt);
      }
    }
  }

  /**
   The floor contract across components: when every seed is at or above the floor and the floor
   is at or above the controller's minimum, no TRACKING message of any run is ever refused for low
   confidence. Validation passes it, and every command that carries it over the wire and is parsed
   makes the controller follow it exactly while it is not stale.
   */
  lemma NeverLowConfidence(c: Config, frames: Frames, n: nat, seqNo: int, timestamp: real,
                           content: Schema.Content, s: FC.State)
    requires ConfidentDetections(c, frames) && n < |frames| && c.floor >= FC.MIN_CONFIDENCE
    ensures var v := BuildVisPayload(seqNo, timestamp, ResultAt(c, frames, n));
            ResultAt(c, frames, n).state == Tracking && content.tracking.Some? && Denotes(content.tracking.value, v) ==>
              && Validated(v) == Ok(v)
              && (OverTheWire(content).Some? <==> Schema.Receivable(content))
              && (OverTheWire(content).Some? ==> Followed(CL.ApplyTracking(s, OverTheWire(content).value.tracking)))
  {
    hide *;
    var v := BuildVisPayload(seqNo, timestamp, ResultAt(c, frames, n));
    if ResultAt(c, frames, n).state == Tracking && content.tracking.Some? && Denotes(content.tracking.value, v) {
      ConfidentMessage(c, frames, n, seqNo, timestamp, s);
      TrackingArrives(content, v);
    }
  }

  // ------------------------------------------------------- exactly when it holds

  /** `(1 - y)^k * (1 + k * y) <= 1`. */
  lemma {:induction false} PowerFalls(d: real, k: nat)
    requires 0.0 < d <= 1.0
    ensures Scaled(Power(d, k), 1.0 + Scaled(k as real, 1.0 - d)) <= 1.0
  {
    var y := 1.0 - d;
    if k > 0 {
      PowerFalls(d, k - 1);
      PowerBounds(d, k - 1);
      var p, m := Power(d, k - 1), (k - 1) as real;
      var before, after := 1.0 + m * y, 1.0 + k as real * y;
      assert k as real * y == m * y + y;
      FactorShrinks(d, y, m);
      assert Scaled(d, after) <= before;
      Regroup(p, d, after, before);
    }
  }

  lemma FactorShrinks(d: real, y: real, m: real)
    requires 0.0 < d <= 1.0 && y == 1.0 - d && m >= 0.0
    ensures Scaled(d, 1.0 + (m * y + y)) <= 1.0 + m * y
  {
    var z := m * y + y;
    assert z >= 0.0;
    assert y * z >= 0.0;
    assert d * (1.0 + z) == 1.0 + z - y - y * z;
  }

  lemma Regroup(p: real, d: real, after: real, before: real)
    requires p > 0.0 && Scaled(d, after) <= before
    ensures Scaled(Scaled(p, d), after) <= Scaled(p, before)
  {
    var x := d * after;
    assert p * x <= p * before;
    assert p * d * after == p * x;
  }

  lemma Inverse(y: real) returns (q: real)
    requires y > 0.0
    ensures Scaled(q, y) == 1.0 && q > 0.0
  {
    q := 1.0 / y;
  }

  lemma ScaledStrict(a: real, b: real, y: real)
    requires a > b && y > 0.0
    ensures Scaled(a, y) > Scaled(b, y)
  {
  }

  lemma SomeMultipleExceedsOne(y: real) returns (k: nat)
    requires y > 0.0
    ensures Scaled(k as real, y) > 1.0
  {
    hide Scaled;
    var q := Inverse(y);
    k := q.Floor + 1;
    ScaledStrict(k as real, q, y);
  }

  /** A true decay falls below one half at some point. */
  lemma PowerFallsBelowHalf(d: real) returns (k: nat)
    requires 0.0 < d < 1.0
    ensures Power(d, k) < 0.5
  {
    hide Power, Scaled;
    k := SomeMultipleExceedsOne(1.0 - d);
    PowerFalls(d, k);
    PowerBounds(d, k);
    HalfFromProduct(Power(d, k), 1.0 + Scaled(k as real, 1.0 - d));
  }

  lemma HalfFromProduct(p: real, f: real)
    requires p > 0.0 && f > 2.0 && Scaled(p, f) <= 1.0
    ensures p < 0.5
  {
    assert p * (f - 2.0) > 0.0;
    assert p * f == p * (f - 2.0) + 2.0 * p;
  }

  /**
   Exactly when a tracker-only stretch keeps the controller following for ever: the confidence
   stays at the controller's minimum on every frame if and only if nothing decays, or the floor
   is at or above that minimum and the seed at or above the floor.
   */
  lemma FloorContractIff(c: Config, seed: real)
    requires FC.MIN_CONFIDENCE <= seed <= 1.0
    ensures (forall k: nat :: AfterDecay(c, seed, k) >= FC.MIN_CONFIDENCE)
       <==> c.decay == 1.0 || (c.floor >= FC.MIN_CONFIDENCE && seed >= c.floor)
  {
    hide Scaled, Power, AfterDecay;
    if c.decay == 1.0 || (c.floor >= FC.MIN_CONFIDENCE && seed >= c.floor) {
      forall k: nat ensures AfterDecay(c, seed, k) >= FC.MIN_CONFIDENCE {
        DecayLaw(c, seed, k);
        if c.decay == 1.0 {
          PowerOfOne(k);
          ScaledAssociates(seed, 1.0, 1.0);
        }
      }
    } else {
      var k := PowerFallsBelowHalf(c.decay);
      DecayLaw(c, seed, k);
      PowerBounds(c.decay, k);
      SeedTimes(seed, Power(c.decay, k));
      assert AfterDecay(c, seed, k) < FC.MIN_CONFIDENCE;
    }
  }

  lemma SeedTimes(seed: real, p: real)
    requires 0.0 <= seed <= 1.0 && p > 0.0
    ensures Scaled(seed, p) <= p
  {
  }

  lemma {:induction false} PowerOfOne(k: nat)
    ensures Power(1.0, k) == 1.0
  {
    if k > 0 {
      PowerOfOne(k - 1);
    }
  }
}
