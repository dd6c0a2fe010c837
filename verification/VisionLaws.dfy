/** The vision state machine without its counters: what decides each step of a run, and where the box ends up. */
module VisionLaws {
  import opened Wrappers
  import opened Bytes
  import opened VisionPipeline
  import opened VisionRuns

  // ------------------------------------------------------------------- detections

  /** The frames on which the detector is asked: every `detect_every_n`-th id from 1 on. */
  predicate Asked(c: Config, id: int) {
    if id <= 1 then true else (id - 1) % c.detectEveryN == 0
  }

  /** The last frame up to `n` on which the detector was asked. */
  function LastAsked(c: Config, frames: Frames, n: nat): (r: Option<nat>)
    requires n < |frames|
    ensures match r
            case None => forall j | 0 <= j <= n :: !Asked(c, frames[j].id)
            case Some(k) => k <= n && Asked(c, frames[k].id) && forall j | k < j <= n :: !Asked(c, frames[j].id)
  {
    if Asked(c, frames[n].id) then Some(n) else if n == 0 then None else LastAsked(c, frames, n - 1)
  }

  lemma AskedIs(c: Config, id: int)
    ensures ShouldDetect(c, id) == Asked(c, id)
  {
    assert 0 % c.detectEveryN == 0;
  }

  lemma StepRemembers(c: Config, p: Pipe, f: Frame)
    requires HasSize(f)
    ensures var q, r := Process(c, p, f).0, Remember(c, p, f);
            q.lastDetection == r.lastDetection && q.lastDetectionFrame == r.lastDetectionFrame
  {
    hide Normalize, Iou, Scaled, Reused, ShouldDetect;
  }

  /** What the pipeline remembers is the answer of the last frame on which the detector was asked. */
  lemma {:induction false} RemembersLast(c: Config, frames: Frames, n: nat)
    requires n < |frames|
    ensures var r := Remember(c, Before(c, frames, n), frames[n]);
            match LastAsked(c, frames, n)
            case None => r.lastDetection == None && r.lastDetectionFrame == None
            case Some(k) =>
              r.lastDetection == frames[k].best
              && r.lastDetectionFrame == if frames[k].best.Some? then Some(frames[k].id) else None
  {
    hide Process, ShouldDetect, Asked;
    AskedIs(c, frames[n].id);
    if n > 0 {
      RemembersLast(c, frames, n - 1);
      StepRemembers(c, Before(c, frames, n - 1), frames[n - 1]);
    }
  }

  /**
   A frame shows the held target exactly when the last frame on which the detector was asked had a
   detection, and that frame is this one or fewer than `detect_every_n` ids back.
   */
  lemma HitIff(c: Config, frames: Frames, n: nat)
    requires n < |frames|
    ensures Hit(c, frames, n)
       <==> match LastAsked(c, frames, n)
            case None => false
            case Some(k) => frames[k].best.Some? && (k == n || frames[n].id - frames[k].id < c.detectEveryN)
  {
    hide Process, ShouldDetect, Asked;
    AskedIs(c, frames[n].id);
    RemembersLast(c, frames, n);
  }

  /** With frames numbered 1, 2, 3, ... a detection counts until the detector is asked again. */
  lemma HitsWithoutGaps(c: Config, frames: Frames, n: nat)
    requires n < |frames| && forall j | 0 <= j < |frames| :: frames[j].id == j + 1
    ensures Hit(c, frames, n) <==> frames[n - n % c.detectEveryN].best.Some?
  {
    hide Hit;
    HitIff(c, frames, n);
    var m, k := c.detectEveryN, n - n % c.detectEveryN;
    MultipleBelow(n, m);
    assert Asked(c, frames[k].id);
    forall j | k < j <= n ensures !Asked(c, frames[j].id) {
      NoMultipleBetween(n, m, j);
    }
  }

  lemma MultipleBelow(n: nat, m: nat)
    requires m > 0
    ensures 0 <= n - n % m <= n && (n - n % m) % m == 0 && n % m < m
  {
    assert n == n / m * m + n % m;
    RemainderUnique(n / m * m, m, n / m, 0);
  }

  lemma NoMultipleBetween(n: nat, m: nat, j: nat)
    requires m > 0 && n - n % m < j <= n
    ensures j % m != 0
  {
    var q, r := n / m, n % m;
    assert n == q * m + r && j == q * m + (j - q * m) && 0 < j - q * m < m;
    RemainderUnique(j, m, q, j - q * m);
  }

  // ------------------------------------------------------------------ transitions

  /** A held target is dropped exactly after more misses in a row than the grace, since it was entered. */
  lemma DropsIff(c: Config, frames: Frames, n: nat) returns (e: nat)
    requires n < |frames| && Before(c, frames, n).state == TargetDetected
    ensures e < n && HeldSince(c, frames, e, n)
    ensures Before(c, frames, n + 1).state == NoTarget
       <==> n - c.graceFrames > e && AllMiss(c, frames, n - c.graceFrames, n + 1)
    ensures Before(c, frames, n + 1).state != Searching
  {
    hide Process, Hit;
    e := HeldHistory(c, frames, n);
    var p := Before(c, frames, n);
    HeldStep(c, p, frames[n]);
    HitIs(c, frames, n);
    if n - c.graceFrames > e && AllMiss(c, frames, n - c.graceFrames, n + 1) {
      assert !Hit(c, frames, n);
      assert AllMiss(c, frames, n - c.graceFrames, n);
    }
    if Before(c, frames, n + 1).state == NoTarget {
      assert !Hit(c, frames, n) && p.missStreak >= c.graceFrames;
      assert n - c.graceFrames >= n - p.missStreak > e;
    }
  }

  /**
   Idle or searching, a detection of this frame holds the target; tracking is lost exactly without
   a detection and without a tracker that moves the box.
   */
  lemma OtherSteps(c: Config, p: Pipe, f: Frame)
    requires HasSize(f)
    ensures var q, seen := Process(c, p, f).0, Asked(c, f.id) && f.best.Some?;
            && (p.state == NoTarget ==> q.state == if seen then TargetDetected else NoTarget)
            && (p.state == Searching && seen ==> q.state == TargetDetected)
            && (p.state == Tracking ==>
                  q.state == if seen || (p.trackerActive && f.update.Some?) then Tracking else Searching)
  {
    hide Normalize, Iou, Scaled, ShouldDetect, Asked;
    AskedIs(c, f.id);
  }

  // --------------------------------------------------------------------- geometry

  /** The box that a TRACKING result shows. */
  function ShownBox(c: Config, p: Pipe, f: Frame): Option<PixelBox> {
    var current := Current(c, Remember(c, p, f), f);
    if p.state == TargetDetected then (match current case None => None case Some(d) => Some(d.bbox))
    else if Asked(c, f.id) && f.best.Some? then Some(f.best.value.bbox)
    else f.update
  }

  lemma ShowsBox(c: Config, p: Pipe, f: Frame)
    requires HasSize(f)
    ensures var r := Process(c, p, f).1;
            r.state == Tracking ==>
              ShownBox(c, p, f).Some? && r.bbox == Normalize(ShownBox(c, p, f).value, f.width, f.height)
  {
    hide Normalize, Iou, Scaled, ShouldDetect, Asked;
    AskedIs(c, f.id);
  }

  function Unit(x: real): real {
    if x < 0.0 then 0.0 else if x > 1.0 then 1.0 else x
  }

  /**
   On a frame with a detection the confidence shown is the detection's own, cut to 0..1: on the frame
   that starts tracking, and on every later one.
   */
  lemma ShowsConfidence(c: Config, p: Pipe, f: Frame)
    requires HasSize(f)
    ensures var (q, r) := Process(c, p, f);
            var current := Current(c, Remember(c, p, f), f);
            && (r.state == Tracking ==> q.conf == r.conf)
            && (r.state == Tracking && p.state == TargetDetected ==>
                  current.Some? && r.conf == Unit(current.value.confidence) && q.trackerActive == f.initOk)
            && (r.state == Tracking && p.state == Tracking && Asked(c, f.id) && f.best.Some? ==>
                  r.conf == Unit(f.best.value.confidence))
  {
    hide Normalize, Iou, Scaled, ShouldDetect, Asked, Reused;
    AskedIs(c, f.id);
  }

  /** An idle tracker, or one without a box, is initialised on every detection; without a detection it moves the box. */
  lemma TrackerSteps(c: Config, p: Pipe, f: Frame)
    requires HasSize(f) && p.state == Tracking
    ensures var q, seen := Process(c, p, f).0, Asked(c, f.id) && f.best.Some?;
            && (seen && (!p.trackerActive || p.trackerBox.None?) ==>
                  q.trackerActive == f.initOk && q.trackerBox == if f.initOk then Some(f.best.value.bbox) else None)
            && (!seen && p.trackerActive && f.update.Some? ==> q.trackerActive && q.trackerBox == f.update)
  {
    hide Normalize, Iou, Scaled, ShouldDetect, Asked;
    AskedIs(c, f.id);
  }

  /** The box lies in the picture. */
  predicate InPicture(b: PixelBox, f: Frame) {
    0.0 <= b.x && 0.0 <= b.y && 0.0 <= b.w && 0.0 <= b.h
    && b.x + b.w <= f.width as real && b.y + b.h <= f.height as real
  }

  /** Normalised, a box in the picture keeps its centre and its size, in parts of the picture. */
  lemma NormalizedIs(b: PixelBox, f: Frame)
    requires HasSize(f) && InPicture(b, f)
    ensures var r, w, h := Normalize(b, f.width, f.height), f.width as real, f.height as real;
            r.cx * w == b.x + b.w / 2.0 && r.cy * h == b.y + b.h / 2.0 && r.w * w == b.w && r.h * h == b.h
  {
    Part(b.x + b.w / 2.0, f.width as real);
    Part(b.y + b.h / 2.0, f.height as real);
    Part(b.w, f.width as real);
    Part(b.h, f.height as real);
  }

  lemma Part(x: real, whole: real)
    requires 0.0 <= x <= whole && whole > 0.0
    ensures 0.0 <= x / whole <= 1.0 && x / whole * whole == x
  {
    var r := x / whole;
    assert r * whole == x;
    SignOfProduct(r, whole);
    assert (1.0 - r) * whole == whole - x;
    SignOfProduct(1.0 - r, whole);
  }
}
