/** The vision state machine: detection hold, grace, tracking with confidence decay, search. */
module VisionPipeline {
  import opened Wrappers
  import RM = RcMath

  datatype VisState = NoTarget | TargetDetected | Tracking | Searching

  datatype PixelBox = PixelBox(x: real, y: real, w: real, h: real)

  datatype Detection = Detection(bbox: PixelBox, confidence: real)

  datatype NormalizedBox = NormalizedBox(cx: real, cy: real, w: real, h: real)

  datatype TrackerResult = TrackerResult(state: VisState, bbox: NormalizedBox, conf: real, trackId: nat)

  datatype ConfigRaw = Config(detectHoldN: nat, searchN: nat, detectEveryN: nat, graceFrames: nat,
                              reinitIou: real, decay: real, floor: real)
  {
    predicate Valid() {
      detectEveryN > 0 && 0.0 <= reinitIou <= 1.0 && 0.0 < decay <= 1.0 && 0.0 <= floor <= 1.0
    }
  }

  type Config = c: ConfigRaw | c.Valid() witness Config(30, 30, 1, 1, 0.5, 0.95, 0.5)

  /**
   One frame and what the outside answers on it: the detector's best box, whether the tracker
   could be initialised, and the tracker's update.
   */
  datatype Frame = Frame(id: int, width: nat, height: nat, best: Option<Detection>, initOk: bool,
                         update: Option<PixelBox>)

  predicate HasSize(f: Frame) {
    f.width > 0 && f.height > 0
  }

  datatype Pipe = Pipe(
    state: VisState,
    hold: nat,
    searchCount: nat,
    detectedBox: Option<Detection>,
    lastDetection: Option<Detection>,
    lastDetectionFrame: Option<int>,
    trackerActive: bool,
    trackerBox: Option<PixelBox>,
    conf: real,
    missStreak: nat)

  const IDLE := Pipe(NoTarget, 0, 0, None, None, None, false, None, 0.0, 0)

  function Clamp01(x: real): (r: real)
    ensures 0.0 <= r <= 1.0 && (0.0 <= x <= 1.0 ==> r == x)
  {
    RM.Clamp(x, 0.0, 1.0)
  }

  function Normalize(b: PixelBox, width: nat, height: nat): (r: NormalizedBox)
    requires width > 0 && height > 0
    ensures 0.0 <= r.cx <= 1.0 && 0.0 <= r.cy <= 1.0 && 0.0 <= r.w <= 1.0 && 0.0 <= r.h <= 1.0
  {
    NormalizedBox(Clamp01((b.x + b.w / 2.0) / width as real), Clamp01((b.y + b.h / 2.0) / height as real),
                  Clamp01(b.w / width as real), Clamp01(b.h / height as real))
  }

  function TrackingResult(b: PixelBox, f: Frame, conf: real): TrackerResult
    requires HasSize(f)
  {
    TrackerResult(Tracking, Normalize(b, f.width, f.height), conf, 1)
  }

  function ZeroResult(state: VisState): TrackerResult {
    TrackerResult(state, NormalizedBox(0.0, 0.0, 0.0, 0.0), 0.0, 0)
  }

  // ------------------------------------------------------------------------ IoU

  function Min(a: real, b: real): real {
    if a <= b then a else b
  }

  function Max(a: real, b: real): real {
    if a >= b then a else b
  }

  /** The length two intervals share; negative when they are apart. */
  function Overlap(p: real, n: real, q: real, m: real): real {
    Min(p + n, q + m) - Max(p, q)
  }

  function Iou(a: PixelBox, b: PixelBox): real {
    if a.w <= 0.0 || a.h <= 0.0 || b.w <= 0.0 || b.h <= 0.0 then 0.0
    else
      var w, h := Overlap(a.x, a.w, b.x, b.w), Overlap(a.y, a.h, b.y, b.h);
      if w <= 0.0 || h <= 0.0 then 0.0 else AreaRatio(w, h, a.w, a.h, b.w, b.h)
  }

  /** Intersection over union, from the sides of the intersection and of the two boxes. */
  function AreaRatio(w: real, h: real, aw: real, ah: real, bw: real, bh: real): real {
    var inter := w * h;
    var union := aw * ah + bw * bh - inter;
    if union <= 0.0 then 0.0 else inter / union
  }

  // ------------------------------------------------------------------- one frame

  predicate ShouldDetect(c: Config, id: int) {
    ((if id > 1 then id else 1) - 1) % c.detectEveryN == 0
  }

  /** The detection of this very frame. */
  function Fresh(c: Config, f: Frame): Option<Detection> {
    if ShouldDetect(c, f.id) then f.best else None
  }

  function Remember(c: Config, p: Pipe, f: Frame): Pipe {
    if ShouldDetect(c, f.id) then
      p.(lastDetection := f.best, lastDetectionFrame := if f.best.Some? then Some(f.id) else None)
    else p
  }

  function Reused(c: Config, last: Option<Detection>, lastFrame: Option<int>, id: int): Option<Detection> {
    if last.None? || lastFrame.None? then None
    else if id - lastFrame.value < c.detectEveryN then last
    else None
  }

  /** The detection that counts while a target is held: fresh, or reused on frames without detection. */
  function Current(c: Config, p: Pipe, f: Frame): Option<Detection> {
    if Fresh(c, f).Some? then Fresh(c, f)
    else if !ShouldDetect(c, f.id) then Reused(c, p.lastDetection, p.lastDetectionFrame, f.id)
    else None
  }

  function ToNoTarget(p: Pipe): Pipe {
    p.(state := NoTarget, hold := 0, searchCount := 0, detectedBox := None, missStreak := 0,
       trackerActive := false, trackerBox := None, conf := 0.0)
  }

  function ToDetected(p: Pipe, d: Detection): Pipe {
    p.(state := TargetDetected, detectedBox := Some(d), hold := 0, searchCount := 0, missStreak := 0)
  }

  function UpdateNoTarget(p: Pipe, seen: Option<Detection>): (Pipe, TrackerResult) {
    if seen.None? then (p, ZeroResult(NoTarget)) else (ToDetected(p, seen.value), ZeroResult(TargetDetected))
  }

  function UpdateDetected(c: Config, p: Pipe, f: Frame): (Pipe, TrackerResult)
    requires HasSize(f)
  {
    var current := Current(c, p, f);
    if current.None? then
      if p.missStreak + 1 <= c.graceFrames then (p.(missStreak := p.missStreak + 1), ZeroResult(TargetDetected))
      else (ToNoTarget(p), ZeroResult(NoTarget))
    else
      var q := p.(missStreak := 0, detectedBox := current, hold := p.hold + 1);
      if q.hold >= c.detectHoldN then
        var conf := Clamp01(current.value.confidence);
        (q.(state := Tracking, searchCount := 0, trackerActive := f.initOk, conf := conf),
         TrackingResult(current.value.bbox, f, conf))
      else (q, ZeroResult(TargetDetected))
  }

  predicate ShouldReinit(c: Config, p: Pipe, d: Detection) {
    !p.trackerActive || p.trackerBox.None? || Iou(p.trackerBox.value, d.bbox) < c.reinitIou
  }

  function Scaled(conf: real, factor: real): real {
    conf * factor
  }

  /** A tracker-only frame scales the confidence down, but not from above the floor to below it. */
  function Decayed(c: Config, conf: real): real {
    if conf >= c.floor then Max(Scaled(conf, c.decay), c.floor) else Scaled(conf, c.decay)
  }

  function ToSearching(p: Pipe): Pipe {
    p.(state := Searching, searchCount := 0, hold := 0, detectedBox := None, trackerBox := None, conf := 0.0,
       trackerActive := false)
  }

  function UpdateTracking(c: Config, p: Pipe, f: Frame): (Pipe, TrackerResult)
    requires HasSize(f)
  {
    match Fresh(c, f)
    case Some(d) =>
      var active := if ShouldReinit(c, p, d) then f.initOk else p.trackerActive;
      var conf := Clamp01(d.confidence);
      (p.(trackerActive := active, trackerBox := if active then Some(d.bbox) else None, conf := conf),
       TrackingResult(d.bbox, f, conf))
    case None =>
      if p.trackerActive && f.update.Some? then
        var conf := Decayed(c, p.conf);
        (p.(trackerBox := f.update, conf := conf), TrackingResult(f.update.value, f, conf))
      else (ToSearching(p), ZeroResult(Searching))
  }

  function UpdateSearching(c: Config, p: Pipe, seen: Option<Detection>): (Pipe, TrackerResult) {
    if seen.Some? then (ToDetected(p, seen.value), ZeroResult(TargetDetected))
    else if p.searchCount + 1 >= c.searchN then (ToNoTarget(p), ZeroResult(NoTarget))
    else (p.(searchCount := p.searchCount + 1), ZeroResult(Searching))
  }

  function Process(c: Config, p: Pipe, f: Frame): (Pipe, TrackerResult)
    requires HasSize(f)
  {
    var q := Remember(c, p, f);
    match p.state
    case NoTarget => UpdateNoTarget(q, Fresh(c, f))
    case TargetDetected => UpdateDetected(c, q, f)
    case Tracking => UpdateTracking(c, q, f)
    case Searching => UpdateSearching(c, q, Fresh(c, f))
  }

  // ------------------------------------------------------------------- the class

  class Pipeline {
    const config: Config
    var state: VisState
    var detectedHoldCounter: nat
    var searchCounter: nat
    var detectedBox: Option<Detection>
    var lastDetection: Option<Detection>
    var lastDetectionFrame: Option<int>
    var trackerActive: bool
    var lastTrackerBox: Option<PixelBox>
    var lastTrackingConf: real
    var missStreak: nat

    ghost function Now(): Pipe
      reads this
    {
      Pipe(state, detectedHoldCounter, searchCounter, detectedBox, lastDetection, lastDetectionFrame,
           trackerActive, lastTrackerBox, lastTrackingConf, missStreak)
    }

    constructor (config: Config)
      ensures Now() == IDLE && this.config == config
    {
      this.config := config;
      state, detectedHoldCounter, searchCounter := NoTarget, 0, 0;
      detectedBox, lastDetection, lastDetectionFrame := None, None, None;
      trackerActive, lastTrackerBox, lastTrackingConf, missStreak := false, None, 0.0, 0;
    }

    method TransitionNoTarget()
      modifies this
      ensures Now() == ToNoTarget(old(Now()))
    {
      state, detectedHoldCounter, searchCounter, detectedBox, missStreak := NoTarget, 0, 0, None, 0;
      trackerActive, lastTrackerBox, lastTrackingConf := false, None, 0.0;
    }

    method DetectBest(f: Frame) returns (best: Option<Detection>)
      modifies this`lastDetection, this`lastDetectionFrame
      ensures best == Fresh(config, f) && Now() == Remember(config, old(Now()), f)
    {
      if !ShouldDetect(config, f.id) {
        return None;
      }
      best := f.best;
      lastDetection := best;
      lastDetectionFrame := if best.Some? then Some(f.id) else None;
    }

    method OnDetected(f: Frame, detected: Option<Detection>) returns (r: TrackerResult)
      requires HasSize(f) && detected == Fresh(config, f)
      modifies this
      ensures (Now(), r) == UpdateDetected(config, old(Now()), f)
    {
      hide Normalize;
      var current := detected;
      if current.None? && !ShouldDetect(config, f.id) {
        current := Reused(config, lastDetection, lastDetectionFrame, f.id);
      }
      if current.None? {
        missStreak := missStreak + 1;
        if missStreak <= config.graceFrames {
          return ZeroResult(TargetDetected);
        }
        TransitionNoTarget();
        return ZeroResult(NoTarget);
      }
      missStreak := 0;
      detectedBox := current;
      detectedHoldCounter := detectedHoldCounter + 1;
      if detectedHoldCounter >= config.detectHoldN {
        state := Tracking;
        searchCounter := 0;
        trackerActive := f.initOk;
        lastTrackingConf := Clamp01(current.value.confidence);
        return TrackingResult(current.value.bbox, f, lastTrackingConf);
      }
      return ZeroResult(TargetDetected);
    }

    method OnTracking(f: Frame, detected: Option<Detection>) returns (r: TrackerResult)
      requires HasSize(f) && detected == Fresh(config, f)
      modifies this
      ensures (Now(), r) == UpdateTracking(config, old(Now()), f)
    {
      hide Normalize, Iou, Scaled;
      var updated := None;
      if trackerActive && detected.None? {
        updated := f.update;
        if updated.Some? {
          lastTrackerBox := updated;
        } else {
          trackerActive := false;
        }
      }
      if detected.Some? {
        var d := detected.value;
        if !trackerActive || lastTrackerBox.None? || Iou(lastTrackerBox.value, d.bbox) < config.reinitIou {
          trackerActive := f.initOk;
        }
        lastTrackerBox := if trackerActive then Some(d.bbox) else None;
        lastTrackingConf := Clamp01(d.confidence);
        return TrackingResult(d.bbox, f, lastTrackingConf);
      }
      if updated.Some? {
        var decayed := Scaled(lastTrackingConf, config.decay);
        lastTrackingConf := if lastTrackingConf >= config.floor then Max(decayed, config.floor) else decayed;
        return TrackingResult(updated.value, f, lastTrackingConf);
      }
      state, searchCounter, detectedHoldCounter := Searching, 0, 0;
      detectedBox, lastTrackerBox, lastTrackingConf, trackerActive := None, None, 0.0, false;
      return ZeroResult(Searching);
    }

    method OnSearching(detected: Option<Detection>) returns (r: TrackerResult)
      modifies this
      ensures (Now(), r) == UpdateSearching(config, old(Now()), detected)
    {
      if detected.Some? {
        state, detectedBox, detectedHoldCounter, searchCounter, missStreak := TargetDetected, detected, 0, 0, 0;
        return ZeroResult(TargetDetected);
      }
      searchCounter := searchCounter + 1;
      if searchCounter >= config.searchN {
        TransitionNoTarget();
        return ZeroResult(NoTarget);
      }
      return ZeroResult(Searching);
    }

    method OnNoTarget(detected: Option<Detection>) returns (r: TrackerResult)
      modifies this
      ensures (Now(), r) == UpdateNoTarget(old(Now()), detected)
    {
      if detected.None? {
        return ZeroResult(NoTarget);
      }
      state, detectedBox, detectedHoldCounter, searchCounter, missStreak := TargetDetected, detected, 0, 0, 0;
      return ZeroResult(TargetDetected);
    }

    method ProcessFrame(f: Frame) returns (r: TrackerResult)
      requires HasSize(f)
      modifies this
      ensures (Now(), r) == Process(config, old(Now()), f)
    {
      hide UpdateNoTarget, UpdateDetected, UpdateTracking, UpdateSearching;
      var detected := DetectBest(f);
      match state {
        case NoTarget => r := OnNoTarget(detected);
        case TargetDetected => r := OnDetected(f, detected);
        case Tracking => r := OnTracking(f, detected);
        case Searching => r := OnSearching(detected);
      }
    }
  }
}
