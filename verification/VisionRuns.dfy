/** What the vision state machine guarantees over every run of frames. */
module VisionRuns {
  import opened Wrappers
  import opened VisionPipeline

  type Frames = fs: seq<Frame> | forall i | 0 <= i < |fs| :: HasSize(fs[i]) witness []

  /** The pipeline before frame `n` of a run from the idle state. */
  function Before(c: Config, frames: Frames, n: nat): Pipe
    requires n <= |frames|
  {
    if n == 0 then IDLE else Process(c, Before(c, frames, n - 1), frames[n - 1]).0
  }

  function ResultAt(c: Config, frames: Frames, n: nat): TrackerResult
    requires n < |frames|
  {
    Process(c, Before(c, frames, n), frames[n]).1
  }

  // ------------------------------------------------------------------ invariants

  /** Outside tracking every tracker cache is cleared; a cached box belongs to an active tracker. */
  predicate Tidy(p: Pipe) {
    && (p.state != Tracking ==> !p.trackerActive && p.trackerBox.None? && p.conf == 0.0)
    && (p.trackerBox.Some? ==> p.trackerActive)
    && 0.0 <= p.conf <= 1.0
  }

  lemma ScaledIsSmaller(conf: real, factor: real)
    requires 0.0 <= conf && 0.0 < factor <= 1.0
    ensures 0.0 <= Scaled(conf, factor) <= conf
  {
  }

  lemma ProcessTidies(c: Config, p: Pipe, f: Frame)
    requires Tidy(p) && HasSize(f)
    ensures Tidy(Process(c, p, f).0)
    ensures var (q, r) := Process(c, p, f);
            r.state == q.state && r.conf == q.conf && (r.state != Tracking ==> r == ZeroResult(r.state))
  {
    hide Normalize, Iou, Scaled;
    ScaledIsSmaller(p.conf, c.decay);
  }

  lemma {:induction false} AlwaysTidy(c: Config, frames: Frames, n: nat)
    requires n <= |frames|
    ensures Tidy(Before(c, frames, n))
  {
    hide Tidy, Process;
    if n == 0 {
      IdleIsTidy();
    } else {
      AlwaysTidy(c, frames, n - 1);
      ProcessTidies(c, Before(c, frames, n - 1), frames[n - 1]);
    }
  }

  lemma IdleIsTidy()
    ensures Tidy(IDLE)
  {
  }

  // ------------------------------------------------------ the way into tracking

  /** Frame `n` shows the held target, by a fresh or a reused detection. */
  predicate Hit(c: Config, frames: Frames, n: nat)
    requires n < |frames|
  {
    Current(c, Remember(c, Before(c, frames, n), frames[n]), frames[n]).Some?
  }

  function Hits(c: Config, frames: Frames, first: nat, end: nat): nat
    requires first <= end <= |frames|
  {
    if first == end then 0 else Hits(c, frames, first, end - 1) + (if Hit(c, frames, end - 1) then 1 else 0)
  }

  /** Frames `a` up to `b` exclusive all miss the held target. */
  predicate AllMiss(c: Config, frames: Frames, a: nat, b: nat)
    requires a <= b <= |frames|
  {
    forall j: nat | a <= j < b :: !Hit(c, frames, j)
  }

  /** Since frame `e` entered TARGET_DETECTED, up to frame `n`, the state has not changed. */
  ghost predicate HeldSince(c: Config, frames: Frames, e: nat, n: nat)
    requires e < n <= |frames|
  {
    && Before(c, frames, e).state != TargetDetected
    && forall j: nat | e < j <= n :: Before(c, frames, j).state == TargetDetected
  }

  /** No run of misses in frames `first` up to `end` is longer than the grace. */
  ghost predicate WithinGrace(c: Config, frames: Frames, first: nat, end: nat)
    requires first <= end <= |frames|
  {
    forall a: nat, b: nat | first <= a <= b <= end && AllMiss(c, frames, a, b) :: b - a <= c.graceFrames
  }

  function HoldNeeded(c: Config): nat {
    if c.detectHoldN > 1 then c.detectHoldN else 1
  }

  lemma HeldStep(c: Config, p: Pipe, f: Frame)
    requires p.state == TargetDetected && HasSize(f)
    ensures var q := Process(c, p, f).0;
            var hit := Current(c, Remember(c, p, f), f).Some?;
            && (q.state == TargetDetected ==>
                  if hit then q.hold == p.hold + 1 < HoldNeeded(c) && q.missStreak == 0
                  else q.hold == p.hold && q.missStreak == p.missStreak + 1 <= c.graceFrames)
            && (!hit ==> if p.missStreak + 1 <= c.graceFrames then q.state == TargetDetected else q.state == NoTarget)
            && (hit ==> q.state != NoTarget && q.state != Searching)
            && (q.state == Tracking ==> hit && p.hold + 1 >= c.detectHoldN)
  {
    hide Normalize;
  }

  lemma EntersHeld(c: Config, p: Pipe, f: Frame)
    requires p.state != TargetDetected && HasSize(f) && Process(c, p, f).0.state == TargetDetected
    ensures Process(c, p, f).0.hold == 0 && Process(c, p, f).0.missStreak == 0
  {
    hide Normalize, Iou;
  }

  /** What TARGET_DETECTED has counted since it was entered. */
  lemma {:induction false} HeldHistory(c: Config, frames: Frames, n: nat) returns (e: nat)
    requires n <= |frames| && Before(c, frames, n).state == TargetDetected
    ensures e < n && HeldSince(c, frames, e, n)
    ensures var p := Before(c, frames, n);
            && p.hold == Hits(c, frames, e + 1, n) < HoldNeeded(c)
            && WithinGrace(c, frames, e + 1, n) && p.missStreak <= c.graceFrames
            && (forall a: nat | e < a <= n && AllMiss(c, frames, a, n) :: n - a <= p.missStreak)
            && e + 1 + p.missStreak <= n && AllMiss(c, frames, n - p.missStreak, n)
    decreases n
  {
    hide Process, Hit;
    var p := Before(c, frames, n - 1);
    if p.state != TargetDetected {
      e := n - 1;
      EntersHeld(c, p, frames[n - 1]);
    } else {
      e := HeldHistory(c, frames, n - 1);
      HeldStep(c, p, frames[n - 1]);
      HitIs(c, frames, n - 1);
      GraceGrows(c, frames, e + 1, n - 1, n, p.missStreak);
    }
  }

  lemma HitIs(c: Config, frames: Frames, n: nat)
    requires n < |frames|
    ensures Hit(c, frames, n) == Current(c, Remember(c, Before(c, frames, n), frames[n]), frames[n]).Some?
  {
  }

  lemma GraceGrows(c: Config, frames: Frames, first: nat, m: nat, n: nat, streak: nat)
    requires first <= m < |frames| && n == m + 1 && WithinGrace(c, frames, first, m)
    requires forall a: nat | first <= a <= m && AllMiss(c, frames, a, m) :: m - a <= streak
    requires !Hit(c, frames, m) ==> streak + 1 <= c.graceFrames
    ensures WithinGrace(c, frames, first, n)
    ensures forall a: nat | first <= a <= n && AllMiss(c, frames, a, n) ::
              n - a <= if Hit(c, frames, m) then 0 else streak + 1
  {
    hide Hit;
    forall a: nat | first <= a <= n && AllMiss(c, frames, a, n)
      ensures n - a <= if Hit(c, frames, m) then 0 else streak + 1
    {
      if a < n {
        assert !Hit(c, frames, m);
        assert AllMiss(c, frames, a, m);
      }
    }
  }

  /**
   Every switch into TRACKING follows, since the last entry to TARGET_DETECTED, exactly
   `max(1, detect_hold_n)` frames that show the target, with never more than the grace of misses
   in a row.
   */
  lemma SwitchIntoTracking(c: Config, frames: Frames, n: nat) returns (e: nat)
    requires n < |frames|
    requires Before(c, frames, n).state != Tracking && Before(c, frames, n + 1).state == Tracking
    ensures e < n && HeldSince(c, frames, e, n)
    ensures Hits(c, frames, e + 1, n + 1) == HoldNeeded(c)
    ensures WithinGrace(c, frames, e + 1, n + 1)
  {
    hide Process, Hit, WithinGrace, HeldSince;
    var p := Before(c, frames, n);
    OnlyFromHeld(c, p, frames[n]);
    e := HeldHistory(c, frames, n);
    HeldStep(c, p, frames[n]);
    HitIs(c, frames, n);
    GraceGrows(c, frames, e + 1, n, n + 1, p.missStreak);
  }

  lemma OnlyFromHeld(c: Config, p: Pipe, f: Frame)
    requires HasSize(f) && p.state != Tracking && Process(c, p, f).0.state == Tracking
    ensures p.state == TargetDetected
  {
    hide Normalize;
  }

  // ---------------------------------------------------------------------- search

  lemma SearchStep(c: Config, p: Pipe, f: Frame)
    requires p.state == Searching && HasSize(f) && VisionPipeline.Fresh(c, f).None?
    ensures var q := Process(c, p, f).0;
            if p.searchCount + 1 >= c.searchN then q.state == NoTarget
            else q.state == Searching && q.searchCount == p.searchCount + 1
  {
  }

  lemma SearchStartsAtZero(c: Config, p: Pipe, f: Frame)
    requires HasSize(f) && p.state != Searching && Process(c, p, f).0.state == Searching
    ensures Process(c, p, f).0.searchCount == 0
  {
    hide Normalize, Iou;
  }

  function SearchNeeded(c: Config): nat {
    if c.searchN > 1 then c.searchN else 1
  }

  /**
   A search over a run: when frame `n` enters SEARCHING and `k` frames without a detection follow,
   the state is still SEARCHING after fewer than `max(1, search_n)` of them, and NO_TARGET after
   exactly that many.
   */
  lemma {:induction false} SearchEnds(c: Config, frames: Frames, n: nat, k: nat)
    requires n + 1 + k <= |frames| && k <= SearchNeeded(c)
    requires Before(c, frames, n).state != Searching && Before(c, frames, n + 1).state == Searching
    requires forall i | n < i <= n + k :: VisionPipeline.Fresh(c, frames[i]).None?
    ensures var p := Before(c, frames, n + 1 + k);
            if k < SearchNeeded(c) then p.state == Searching && p.searchCount == k else p.state == NoTarget
  {
    hide Process;
    if k == 0 {
      SearchStartsAtZero(c, Before(c, frames, n), frames[n]);
    } else {
      SearchEnds(c, frames, n, k - 1);
      SearchStep(c, Before(c, frames, n + k), frames[n + k]);
    }
  }

  // ------------------------------------------------------------------ confidence

  function Power(d: real, k: nat): real {
    if k == 0 then 1.0 else Scaled(Power(d, k - 1), d)
  }

  /** The confidence after `k` tracker-only frames. */
  function AfterDecay(c: Config, seed: real, k: nat): real {
    if k == 0 then seed else Decayed(c, AfterDecay(c, seed, k - 1))
  }

  /** The tracker alone answers a frame. */
  predicate TrackerOnly(c: Config, f: Frame) {
    VisionPipeline.Fresh(c, f).None? && f.update.Some?
  }

  lemma TrackerOnlyStep(c: Config, p: Pipe, f: Frame)
    requires p.state == Tracking && p.trackerActive && HasSize(f) && TrackerOnly(c, f)
    ensures var (q, r) := Process(c, p, f);
            q.state == Tracking && q.trackerActive && q.conf == r.conf == Decayed(c, p.conf)
  {
    hide Normalize, Scaled;
  }

  /** A stretch of tracker-only frames decays the confidence frame by frame. */
  lemma {:induction false} TrackerStretch(c: Config, frames: Frames, n: nat, k: nat)
    requires n + k <= |frames| && Before(c, frames, n).state == Tracking && Before(c, frames, n).trackerActive
    requires forall i | n <= i < n + k :: TrackerOnly(c, frames[i])
    ensures var p := Before(c, frames, n + k);
            p.state == Tracking && p.trackerActive && p.conf == AfterDecay(c, Before(c, frames, n).conf, k)
  {
    hide Process, Decayed;
    if k > 0 {
      TrackerStretch(c, frames, n, k - 1);
      TrackerOnlyStep(c, Before(c, frames, n + k - 1), frames[n + k - 1]);
    }
  }

  lemma ScaledPositive(x: real, d: real)
    requires x > 0.0 && d > 0.0
    ensures Scaled(x, d) > 0.0
  {
  }

  lemma ScaledAssociates(s: real, p: real, d: real)
    ensures Scaled(Scaled(s, p), d) == Scaled(s, Scaled(p, d))
    ensures Scaled(s, 1.0) == s
  {
  }

  lemma ScaledMonotone(x: real, y: real, d: real)
    requires x <= y && d > 0.0
    ensures Scaled(x, d) <= Scaled(y, d)
  {
  }

  lemma {:induction false} PowerBounds(d: real, k: nat)
    requires 0.0 < d <= 1.0
    ensures 0.0 < Power(d, k) <= 1.0
  {
    hide Scaled;
    if k > 0 {
      PowerBounds(d, k - 1);
      ScaledIsSmaller(Power(d, k - 1), d);
      ScaledPositive(Power(d, k - 1), d);
    }
  }

  /** `max(seed * decay^k, floor)` from a seed at or above the floor, `seed * decay^k` from below. */
  function DecayedFor(c: Config, seed: real, k: nat): real {
    var x := Scaled(seed, Power(c.decay, k));
    if seed >= c.floor then Max(x, c.floor) else x
  }

  /** The decay law: the confidence after `k` tracker-only frames in closed form. */
  lemma {:induction false} DecayLaw(c: Config, seed: real, k: nat)
    requires 0.0 <= seed <= 1.0
    ensures AfterDecay(c, seed, k) == DecayedFor(c, seed, k)
  {
    hide Scaled;
    ScaledAssociates(seed, 1.0, 1.0);
    if k > 0 {
      DecayLaw(c, seed, k - 1);
      var p := Power(c.decay, k - 1);
      PowerBounds(c.decay, k - 1);
      ScaledAssociates(seed, p, c.decay);
      ScaledIsSmaller(seed, p);
      DecayStep(c, Scaled(seed, p), seed);
    }
  }

  lemma DecayStep(c: Config, x: real, seed: real)
    requires 0.0 <= x <= seed
    ensures seed >= c.floor ==> Decayed(c, Max(x, c.floor)) == Max(Scaled(x, c.decay), c.floor)
    ensures seed < c.floor ==> Decayed(c, x) == Scaled(x, c.decay)
  {
    hide Scaled;
    ScaledIsSmaller(c.floor, c.decay);
    if x <= c.floor {
      ScaledMonotone(x, c.floor, c.decay);
    }
  }

  lemma ProductMonotone(x: real, y: real, d: real)
    requires x <= y && d > 0.0
    ensures x * d <= y * d
  {
  }

  // -------------------------------------------------------------------------- IoU

  lemma OverlapSymmetric(p: real, n: real, q: real, m: real)
    ensures Overlap(p, n, q, m) == Overlap(q, m, p, n)
    ensures Overlap(p, n, q, m) <= n && Overlap(p, n, q, m) <= m
  {
  }

  lemma ProductBound(w: real, h: real, w': real, h': real)
    requires 0.0 < w <= w' && 0.0 < h <= h'
    ensures 0.0 < w * h <= w' * h'
    ensures w * h == w' * h' ==> w == w' && h == h'
  {
    ProductMonotone(w, w', h);
    ProductMonotone(h, h', w');
    assert w * h > 0.0;
    if w < w' {
      assert (w' - w) * h > 0.0;
    } else if h < h' {
      assert (h' - h) * w' > 0.0;
    }
  }

  lemma SignOfProduct(u: real, y: real)
    requires y > 0.0
    ensures u * y >= 0.0 ==> u >= 0.0
    ensures u * y > 0.0 ==> u > 0.0
    ensures u * y == 0.0 ==> u == 0.0
  {
  }

  lemma RatioBounds(x: real, y: real)
    requires 0.0 < x <= y
    ensures 0.0 < x / y <= 1.0 && (x / y == 1.0 <==> x == y)
  {
    var r := x / y;
    assert r * y == x;
    SignOfProduct(r, y);
    assert (1.0 - r) * y == y - x;
    SignOfProduct(1.0 - r, y);
  }

  lemma IouSymmetric(a: PixelBox, b: PixelBox)
    ensures Iou(a, b) == Iou(b, a)
  {
    hide Overlap, AreaRatio;
    OverlapSymmetric(a.x, a.w, b.x, b.w);
    OverlapSymmetric(a.y, a.h, b.y, b.h);
    AreaRatioSymmetric(Overlap(a.x, a.w, b.x, b.w), Overlap(a.y, a.h, b.y, b.h), a.w, a.h, b.w, b.h);
  }

  lemma AreaRatioSymmetric(w: real, h: real, aw: real, ah: real, bw: real, bh: real)
    ensures AreaRatio(w, h, aw, ah, bw, bh) == AreaRatio(w, h, bw, bh, aw, ah)
  {
    assert aw * ah + bw * bh == bw * bh + aw * ah;
  }

  predicate PositiveArea(b: PixelBox) {
    b.w > 0.0 && b.h > 0.0
  }

  lemma FullOverlap(p: real, n: real, q: real, m: real)
    requires Overlap(p, n, q, m) == n == m
    ensures p == q
  {
  }

  /** Everything about the ratio from the sides of the boxes and of their intersection. */
  lemma RatioOfAreas(w: real, h: real, aw: real, ah: real, bw: real, bh: real)
    requires 0.0 < w <= aw && 0.0 < h <= ah && w <= bw && h <= bh
    ensures 0.0 <= AreaRatio(w, h, aw, ah, bw, bh) <= 1.0
    ensures AreaRatio(w, h, aw, ah, bw, bh) == 1.0 <==> w == aw == bw && h == ah == bh
  {
    ProductBound(w, h, aw, ah);
    ProductBound(w, h, bw, bh);
    RatioBounds(w * h, aw * ah + bw * bh - w * h);
  }

  /** The overlap ratio lies between 0 and 1, and for boxes with an area it is 1 exactly on equal boxes. */
  lemma IouRange(a: PixelBox, b: PixelBox)
    ensures 0.0 <= Iou(a, b) <= 1.0
    ensures PositiveArea(a) && PositiveArea(b) ==> (Iou(a, b) == 1.0 <==> a == b)
  {
    var w, h := Overlap(a.x, a.w, b.x, b.w), Overlap(a.y, a.h, b.y, b.h);
    if PositiveArea(a) && PositiveArea(b) {
      SelfOverlap(a);
      hide Overlap, AreaRatio;
      OverlapSymmetric(a.x, a.w, b.x, b.w);
      OverlapSymmetric(a.y, a.h, b.y, b.h);
      if w > 0.0 && h > 0.0 {
        RatioOfAreas(w, h, a.w, a.h, b.w, b.h);
        if w == a.w == b.w && h == a.h == b.h {
          FullOverlap(a.x, a.w, b.x, b.w);
          FullOverlap(a.y, a.h, b.y, b.h);
        }
      }
    }
  }

  lemma SelfOverlap(a: PixelBox)
    requires PositiveArea(a)
    ensures Overlap(a.x, a.w, a.x, a.w) == a.w && Overlap(a.y, a.h, a.y, a.h) == a.h
  {
  }

  // ---------------------------------------------------------- what the ratio is

  predicate In(x: real, p: real, n: real) {
    p <= x < p + n
  }

  predicate InBox(x: real, y: real, b: PixelBox) {
    In(x, b.x, b.w) && In(y, b.y, b.h)
  }

  /** The box of two boxes' common points; without any its sides are not positive. */
  function Shared(a: PixelBox, b: PixelBox): PixelBox {
    PixelBox(if a.x >= b.x then a.x else b.x, if a.y >= b.y then a.y else b.y,
             Overlap(a.x, a.w, b.x, b.w), Overlap(a.y, a.h, b.y, b.h))
  }

  lemma SharedPoints(a: PixelBox, b: PixelBox, x: real, y: real)
    ensures InBox(x, y, Shared(a, b)) <==> InBox(x, y, a) && InBox(x, y, b)
  {
  }

  function Area(b: PixelBox): real {
    if b.w <= 0.0 || b.h <= 0.0 then 0.0 else b.w * b.h
  }

  lemma AreaIsPositive(b: PixelBox)
    requires PositiveArea(b)
    ensures Area(b) == b.w * b.h > 0.0
  {
    ProductBound(b.w, b.h, b.w, b.h);
  }

  lemma SharedIsSmaller(a: PixelBox, b: PixelBox)
    requires PositiveArea(a) && PositiveArea(b)
    ensures 0.0 <= Area(Shared(a, b)) <= Area(a) && Area(Shared(a, b)) <= Area(b)
    ensures Area(a) > 0.0 && Area(b) > 0.0
  {
    hide Overlap;
    OverlapSymmetric(a.x, a.w, b.x, b.w);
    OverlapSymmetric(a.y, a.h, b.y, b.h);
    AreaIsPositive(a);
    AreaIsPositive(b);
    var s := Shared(a, b);
    if s.w > 0.0 && s.h > 0.0 {
      AreaIsPositive(s);
      ProductBound(s.w, s.h, a.w, a.h);
      ProductBound(s.w, s.h, b.w, b.h);
    }
  }

  /**
   The overlap ratio is intersection over union: the ratio times the area that either box covers is
   the area of the points in both. Without area it is zero.
   */
  lemma IouLaw(a: PixelBox, b: PixelBox)
    ensures PositiveArea(a) && PositiveArea(b) ==>
              var union := Area(a) + Area(b) - Area(Shared(a, b));
              union > 0.0 && Iou(a, b) * union == Area(Shared(a, b))
    ensures !PositiveArea(a) || !PositiveArea(b) ==> Iou(a, b) == 0.0
  {
    ThinBoxShares(a, b);
    hide *;
    if PositiveArea(a) && PositiveArea(b) {
      var shared := Area(Shared(a, b));
      SharedIsSmaller(a, b);
      IouIsQuotient(a, b, Area(a), Area(b), shared);
      Quotient(shared, Area(a) + Area(b) - shared);
    }
  }

  lemma ThinBoxShares(a: PixelBox, b: PixelBox)
    ensures !PositiveArea(a) || !PositiveArea(b) ==> Iou(a, b) == 0.0
  {
  }

  lemma IouIsQuotient(a: PixelBox, b: PixelBox, areaA: real, areaB: real, shared: real)
    requires PositiveArea(a) && PositiveArea(b)
    requires areaA == Area(a) && areaB == Area(b) && shared == Area(Shared(a, b)) && areaA + areaB - shared > 0.0
    ensures Iou(a, b) == shared / (areaA + areaB - shared)
  {
    hide Overlap, AreaRatio;
    var w, h := Overlap(a.x, a.w, b.x, b.w), Overlap(a.y, a.h, b.y, b.h);
    if w > 0.0 && h > 0.0 {
      RatioIsQuotient(w, h, a.w, a.h, b.w, b.h, areaA, areaB, shared);
    }
  }

  lemma RatioIsQuotient(w: real, h: real, aw: real, ah: real, bw: real, bh: real,
                        areaA: real, areaB: real, shared: real)
    requires areaA == aw * ah && areaB == bw * bh && shared == w * h && areaA + areaB - shared > 0.0
    ensures AreaRatio(w, h, aw, ah, bw, bh) == shared / (areaA + areaB - shared)
  {
  }

  lemma Quotient(x: real, y: real)
    requires y > 0.0
    ensures x / y * y == x
  {
  }

  /** A box inside another has the ratio of the two areas. */
  lemma IouInside(a: PixelBox, b: PixelBox)
    requires PositiveArea(a) && b.x <= a.x && a.x + a.w <= b.x + b.w && b.y <= a.y && a.y + a.h <= b.y + b.h
    ensures Iou(a, b) == Area(a) / Area(b)
  {
    assert Shared(a, b) == a;
    SharedIsSmaller(a, b);
    IouLaw(a, b);
    hide Iou, Area;
    QuotientIs(Iou(a, b), Area(b), Area(a));
  }

  lemma QuotientIs(r: real, y: real, x: real)
    requires y > 0.0 && r * y == x
    ensures r == x / y
  {
  }

  /** Two equal boxes, one shifted sideways by `d`, have the ratio `(w - d) / (w + d)`. */
  lemma IouShifted(a: PixelBox, d: real)
    requires PositiveArea(a) && 0.0 <= d < a.w
    ensures Iou(a, a.(x := a.x + d)) == (a.w - d) / (a.w + d)
  {
    var b := a.(x := a.x + d);
    assert Shared(a, b) == PixelBox(b.x, a.y, a.w - d, a.h);
    IouLaw(a, b);
    hide Iou, Shared;
    var r, h := Iou(a, b), a.h;
    ShiftedAreas(a.w, d, h);
    assert r * ((a.w + d) * h) == (a.w - d) * h;
    CancelHeight(r, a.w + d, a.w - d, h);
    QuotientIs(r, a.w + d, a.w - d);
  }

  lemma ShiftedAreas(w: real, d: real, h: real)
    ensures w * h + w * h - (w - d) * h == (w + d) * h
  {
  }

  lemma CancelHeight(r: real, u: real, v: real, h: real)
    requires h > 0.0 && r * (u * h) == v * h
    ensures r * u == v
  {
    assert (r * u - v) * h == 0.0;
    SignOfProduct(r * u - v, h);
  }

  /**
   With an active tracker on a box, a new detection re-initialises it exactly when the two boxes share
   less than the threshold's part of the area they cover, and the tracker then follows the detection.
   */
  lemma ReinitsIff(c: Config, p: Pipe, f: Frame, b: PixelBox, d: Detection)
    requires p.state == Tracking && p.trackerActive && p.trackerBox == Some(b) && HasSize(f)
    requires VisionPipeline.Fresh(c, f) == Some(d) && PositiveArea(b) && PositiveArea(d.bbox)
    ensures var shared := Area(Shared(b, d.bbox));
            var again := shared < c.reinitIou * (Area(b) + Area(d.bbox) - shared);
            var q := Process(c, p, f).0;
            && ShouldReinit(c, p, d) == again
            && q.state == Tracking && q.trackerActive == (again ==> f.initOk)
            && q.trackerBox == (if q.trackerActive then Some(d.bbox) else None)
  {
    IouLaw(b, d.bbox);
    hide Iou, Normalize, Area, Shared;
    var shared := Area(Shared(b, d.bbox));
    var union := Area(b) + Area(d.bbox) - shared;
    ScaledLess(Iou(b, d.bbox), c.reinitIou, union);
  }

  lemma ScaledLess(r: real, k: real, u: real)
    requires u > 0.0
    ensures r < k <==> r * u < k * u
  {
    if r < k {
      assert (k - r) * u > 0.0;
    } else {
      assert (r - k) * u >= 0.0;
    }
  }

  /** An unchanged box never re-initialises an active tracker. */
  lemma UnchangedBoxKeepsTracker(c: Config, p: Pipe, d: Detection)
    requires p.trackerActive && p.trackerBox == Some(d.bbox) && PositiveArea(d.bbox)
    ensures !ShouldReinit(c, p, d)
  {
    hide Iou;
    IouRange(d.bbox, d.bbox);
  }
}
