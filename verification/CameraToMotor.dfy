/** From a frame of the camera to the channels of the motors: validated, printed, parsed, applied and flown. */
module CameraToMotor {
  import opened Wrappers
  import opened VisContract
  import VP = VisionPipeline
  import VR = VisionRuns
  import VL = VisionLaws
  import CE = CommandEffects
  import CL = ControlLoop
  import CR = CommandReceiver
  import FC = FlightController
  import FS = FlightSafety
  import Schema = CmdSchema

  // ----------------------------------------------------------------- the message

  /** The controller's name for what the vision side sees. */
  function SeenAs(state: VP.VisState): FC.TrackingState {
    match state
    case NoTarget => FC.NoTarget
    case TargetDetected => FC.TargetDetected
    case Tracking => FC.OnTarget
    case Searching => FC.Searching
  }

  lemma CodeIsKnown(s: FC.State, t: CR.Tracking, state: VP.VisState)
    requires t.state == StateCode(state)
    requires -1.0 <= t.locX <= 1.0 && -1.0 <= t.locY <= 1.0
    requires 0.0 <= t.boundW <= 1.0 && 0.0 <= t.boundH <= 1.0 && 0.0 <= t.confidence <= 1.0
    ensures CL.ApplyTracking(s, Some(t))
         == s.(msg := FC.TrackingMessage(SeenAs(state), t.locX, t.locY, t.boundW, t.boundH, t.confidence,
                                         t.visTimestamp),
               msgTime := s.now)
  {
    CE.TrackingByCode(s, t);
  }

  /** What the vision message of frame `n` says. */
  function PayloadAt(c: VP.Config, frames: VR.Frames, n: nat, seqNo: int, timestamp: real): VisPayload
    requires n < |frames|
  {
    BuildVisPayload(seqNo, timestamp, VR.ResultAt(c, frames, n))
  }

  lemma PayloadIs(c: VP.Config, frames: VR.Frames, n: nat, seqNo: int, timestamp: real)
    requires n < |frames|
    ensures var v, r := PayloadAt(c, frames, n, seqNo, timestamp), VR.ResultAt(c, frames, n);
            Validated(v) == Ok(v) && InRange(v) && v.trackingState == StateCode(r.state) && v.confidence == r.conf
  {
    hide VR.ResultAt;
    PipelineMessagesPass(c, frames, n, seqNo, timestamp);
    CodesOf(seqNo, timestamp, VR.ResultAt(c, frames, n));
  }

  lemma CodesOf(seqNo: int, timestamp: real, r: VP.TrackerResult)
    ensures BuildVisPayload(seqNo, timestamp, r).trackingState == StateCode(r.state)
    ensures Validated(BuildVisPayload(seqNo, timestamp, r)).Ok? ==> InRange(BuildVisPayload(seqNo, timestamp, r))
  {
  }

  /** In each of the four vision states the controller's message after the wire is the pipeline's result. */
  lemma MessageArrives(c: VP.Config, frames: VR.Frames, n: nat, seqNo: int, timestamp: real,
                       content: Schema.Content, s: FC.State)
    requires n < |frames|
    ensures var v, state := PayloadAt(c, frames, n, seqNo, timestamp), VR.ResultAt(c, frames, n).state;
            content.tracking.Some? && Denotes(content.tracking.value, v) && OverTheWire(content).Some? ==>
              CL.ApplyTracking(s, OverTheWire(content).value.tracking)
              == s.(msg := FC.TrackingMessage(SeenAs(state), v.locX, v.locY, v.boundW, v.boundH, v.confidence,
                                              v.timestamp),
                    msgTime := s.now)
  {
    hide VR.ResultAt, PayloadAt, OverTheWire, Denotes, CL.ApplyTracking, SeenAs;
    var v := PayloadAt(c, frames, n, seqNo, timestamp);
    if content.tracking.Some? && Denotes(content.tracking.value, v) && OverTheWire(content).Some? {
      PayloadIs(c, frames, n, seqNo, timestamp);
      TrackingArrives(content, v);
      CodeIsKnown(s, ReceivedTracking(v), VR.ResultAt(c, frames, n).state);
    }
  }

  // ------------------------------------------------------------------ the geometry

  /** The box that the result of frame `n` shows. */
  function BoxAt(c: VP.Config, frames: VR.Frames, n: nat): Option<VP.PixelBox>
    requires n < |frames|
  {
    VL.ShownBox(c, VR.Before(c, frames, n), frames[n])
  }

  lemma MessageOfBox(seqNo: int, timestamp: real, r: VP.TrackerResult, b: VP.PixelBox, f: VP.Frame)
    requires VP.HasSize(f)
    ensures var v, w, h := BuildVisPayload(seqNo, timestamp, r), f.width as real, f.height as real;
            r.state == VP.Tracking && r.bbox == VP.Normalize(b, f.width, f.height) && VL.InPicture(b, f) ==>
            && v.locX * w == 2.0 * b.x + b.w - w && v.locY * h == h - 2.0 * b.y - b.h
            && v.boundW * w == b.w && v.boundH * h == b.h
  {
    hide VP.Normalize;
    if VL.InPicture(b, f) {
      VL.NormalizedIs(b, f);
    }
    var w, h := f.width as real, f.height as real;
    Doubled(r.bbox.cx, w);
    Doubled(r.bbox.cy, h);
    InUnit(b, f);
  }

  lemma Doubled(x: real, w: real)
    ensures (x - 0.5) * 2.0 * w == 2.0 * (x * w) - w && (0.5 - x) * 2.0 * w == w - 2.0 * (x * w)
  {
  }

  lemma InUnit(b: VP.PixelBox, f: VP.Frame)
    requires VP.HasSize(f)
    ensures var r := VP.Normalize(b, f.width, f.height);
            0.0 <= r.cx <= 1.0 && 0.0 <= r.cy <= 1.0 && 0.0 <= r.w <= 1.0 && 0.0 <= r.h <= 1.0
  {
    hide VP.Clamp01;
  }

  /**
   For a box in the picture the message carries its centre, from -1 at the left edge to 1 at the
   right and from 1 at the top to -1 at the bottom, and its size in parts of the picture.
   */
  lemma MessageShowsBox(c: VP.Config, frames: VR.Frames, n: nat, seqNo: int, timestamp: real)
    requires n < |frames| && VR.ResultAt(c, frames, n).state == VP.Tracking
    ensures BoxAt(c, frames, n).Some?
    ensures var f, b, v := frames[n], BoxAt(c, frames, n).value, PayloadAt(c, frames, n, seqNo, timestamp);
            var w, h := f.width as real, f.height as real;
            VL.InPicture(b, f) ==>
              && v.locX * w == 2.0 * b.x + b.w - w && v.locY * h == h - 2.0 * b.y - b.h
              && v.boundW * w == b.w && v.boundH * h == b.h
  {
    hide VP.Process, VP.Normalize, VL.ShownBox, VL.InPicture, BuildVisPayload;
    var p, f := VR.Before(c, frames, n), frames[n];
    VL.ShowsBox(c, p, f);
    if VL.InPicture(BoxAt(c, frames, n).value, f) {
      MessageOfBox(seqNo, timestamp, VR.ResultAt(c, frames, n), BoxAt(c, frames, n).value, f);
    }
  }

  // --------------------------------------------------------------------- the motors

  /** Twice the distance of a box's centre from the middle of the picture, positive to the right. */
  function OffCentre(b: VP.PixelBox, f: VP.Frame): real {
    2.0 * b.x + b.w - f.width as real
  }

  lemma SideOfMessage(x: real, off: real, w: real)
    requires w > 0.0 && x * w == off
    ensures (off >= 0.02 * w <==> x >= 0.02) && (off <= -0.02 * w <==> x <= -0.02)
  {
    SameSide(x, 0.02, w);
    SameSide(-0.02, x, w);
  }

  lemma SameSide(x: real, y: real, w: real)
    requires w > 0.0
    ensures x >= y <==> x * w >= y * w
  {
    if x >= y {
      assert (x - y) * w >= 0.0;
    } else {
      assert (y - x) * w > 0.0;
    }
  }

  /**
   From camera to motors: with seeds and floor high enough, every TRACKING frame whose message comes
   over the wire makes the next Tracking tick follow the target. The yaw channel turns towards the side
   of the picture on which the box stands and stays centred in the middle two percent; roll is centred.
   */
  lemma TargetSteersYaw(c: VP.Config, frames: VR.Frames, n: nat, seqNo: int, timestamp: real,
                        content: Schema.Content, s: FC.State, dt: real)
    requires ConfidentDetections(c, frames) && n < |frames| && c.floor >= FC.MIN_CONFIDENCE
    requires s.mode == FC.Tracking && FS.Calibrated(s.hover) && s.now >= 0.0
    ensures var v := PayloadAt(c, frames, n, seqNo, timestamp);
            && VR.ResultAt(c, frames, n).state == VP.Tracking && content.tracking.Some?
            && Denotes(content.tracking.value, v) && OverTheWire(content).Some? ==>
              var r := FC.UpdateTimeStep(CL.ApplyTracking(s, OverTheWire(content).value.tracking), dt);
              && r.seen == FC.OnTarget && r.cmd.roll == 1500
              && BoxAt(c, frames, n).Some?
              && (VL.InPicture(BoxAt(c, frames, n).value, frames[n]) ==>
                    var off, w := OffCentre(BoxAt(c, frames, n).value, frames[n]), frames[n].width as real;
                    && (off >= 0.02 * w ==> r.cmd.yaw > 1500) && (off <= -0.02 * w ==> r.cmd.yaw < 1500)
                    && (-0.02 * w < off < 0.02 * w ==> r.cmd.yaw == 1500))
  {
    hide VR.ResultAt, VR.Before, PayloadAt, OverTheWire, Denotes, CL.ApplyTracking, FC.UpdateTimeStep, VL.InPicture;
    hide BoxAt, ConfidentDetections, FC.ClampedDt, VP.HasSize;
    var v := PayloadAt(c, frames, n, seqNo, timestamp);
    if VR.ResultAt(c, frames, n).state == VP.Tracking && content.tracking.Some?
       && Denotes(content.tracking.value, v) && OverTheWire(content).Some? {
      MessageArrives(c, frames, n, seqNo, timestamp, content, s);
      ConfidenceHolds(c, frames, n, seqNo, timestamp);
      var t := CL.ApplyTracking(s, OverTheWire(content).value.tracking);
      FS.FollowsIff(t, dt);
      FS.FollowTick(t, dt);
      MessageShowsBox(c, frames, n, seqNo, timestamp);
      if VL.InPicture(BoxAt(c, frames, n).value, frames[n]) {
        PictureHasWidth(frames, n);
        SideOfMessage(v.locX, OffCentre(BoxAt(c, frames, n).value, frames[n]), frames[n].width as real);
      }
    }
  }

  lemma PictureHasWidth(frames: VR.Frames, n: nat)
    requires n < |frames|
    ensures frames[n].width > 0
  {
    assert VP.HasSize(frames[n]);
  }

  lemma ConfidenceHolds(c: VP.Config, frames: VR.Frames, n: nat, seqNo: int, timestamp: real)
    requires ConfidentDetections(c, frames) && n < |frames| && VR.ResultAt(c, frames, n).state == VP.Tracking
    ensures PayloadAt(c, frames, n, seqNo, timestamp).confidence >= c.floor
  {
    hide VP.Process;
    PayloadIs(c, frames, n, seqNo, timestamp);
    AlwaysConfident(c, frames, n);
    StaysConfident(c, VR.Before(c, frames, n), frames[n]);
  }
}
