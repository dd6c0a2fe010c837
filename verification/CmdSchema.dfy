/** The backend's side of a command: choosing its content, laying it out as JSON, framing it. */
module CmdSchema {
  import opened Wrappers
  import opened Bytes
  import opened JsonText
  import opened JsonScan
  import CR = CommandReceiver
  import CM = CommandMeaning

  const MODE_TRACKING := 1
  const MODE_LAND_SAFELY := 2
  const MAX_PAYLOAD_BYTES := 4096

  datatype ValueError = NegativeSeq | NegativeFreshness | UnknownMode | LengthOutOfRange

  datatype BlockedReason = NoVis | StaleVis

  /** What the operator wants. The set-points are a dict from names to arbitrary JSON values. */
  datatype Intent = Intent(desiredMode: int, arm: Option<bool>, setpoints: Option<seq<Member>>)

  datatype VisSnapshot = VisSnapshot(trackingState: int, locX: Numeral, locY: Numeral, boundW: Numeral, boundH: Numeral,
                                     confidence: Numeral, seqNo: int, timestamp: Numeral)

  /** What a command says. */
  datatype Content = Content(seqNo: nat, timestamp: Numeral, mode: int, arm: Option<bool>,
                             setpoints: Option<seq<Member>>, tracking: Option<VisSnapshot>)

  function TrackingMembers(vis: VisSnapshot): seq<Member> {
    [Member("tracking_state", Num(IntNumeral(vis.trackingState))),
     Member("loc_x", Num(vis.locX)),
     Member("loc_y", Num(vis.locY)),
     Member("bound_w", Num(vis.boundW)),
     Member("bound_h", Num(vis.boundH)),
     Member("confidence", Num(vis.confidence)),
     Member("vis_seq", Num(IntNumeral(vis.seqNo))),
     Member("vis_timestamp_s", Num(vis.timestamp))]
  }

  function ArmMembers(c: Content): seq<Member> {
    match c.arm case None => [] case Some(arm) => [Member("arm", Bool(arm))]
  }

  function SetpointMembers(c: Content): seq<Member> {
    match c.setpoints case None => [] case Some(members) => [Member("setpoints", Obj(members))]
  }

  function TrackingMember(c: Content): seq<Member> {
    match c.tracking case None => [] case Some(vis) => [Member("tracking", Obj(TrackingMembers(vis)))]
  }

  /** The payload dict, in insertion order. */
  function PayloadMembers(c: Content): seq<Member> {
    [Member("type", Str("CMD")),
     Member("seq", Num(IntNumeral(c.seqNo))),
     Member("timestamp_s", Num(c.timestamp)),
     Member("desired_mode", Num(IntNumeral(c.mode)))]
    + ArmMembers(c) + SetpointMembers(c) + TrackingMember(c)
  }

  predicate Fresh(vis: Option<VisSnapshot>, visAge: Option<real>, freshness: real) {
    vis.Some? && visAge.Some? && visAge.value <= freshness
  }

  /** The mode sent for the wanted one: tracking needs fresh vision data. */
  function SentMode(wanted: int, isFresh: bool): int {
    if wanted == MODE_TRACKING && !isFresh then MODE_LAND_SAFELY else wanted
  }

  /** The content of the command the backend builds from an intent and the newest vision data. */
  function ContentOf(seqNo: nat, timestamp: Numeral, wanted: Intent, vis: Option<VisSnapshot>,
                     visAge: Option<real>, freshness: real): Content
  {
    var isFresh := Fresh(vis, visAge, freshness);
    Content(seqNo, timestamp, SentMode(wanted.desiredMode, isFresh), wanted.arm, wanted.setpoints,
            if isFresh then vis else None)
  }

  lemma PayloadInSteps(c: Content)
    ensures var head := [Member("type", Str("CMD")), Member("seq", Num(IntNumeral(c.seqNo))),
                         Member("timestamp_s", Num(c.timestamp)), Member("desired_mode", Num(IntNumeral(c.mode)))];
            var armed := if c.arm.Some? then head + [Member("arm", Bool(c.arm.value))] else head;
            var withSet := if c.setpoints.Some? then armed + [Member("setpoints", Obj(c.setpoints.value))] else armed;
            PayloadMembers(c)
            == if c.tracking.None? then withSet
               else withSet + [Member("tracking", Obj(TrackingMembers(c.tracking.value)))]
  {
    hide TrackingMembers, IntNumeral;
  }

  method BuildCmdPayload(seqNo: int, timestamp: Numeral, intent: Option<Intent>, vis: Option<VisSnapshot>,
                         visAge: Option<real>, freshness: real)
    returns (r: Result<seq<Member>, ValueError>, blocked: Option<BlockedReason>)
    ensures r.Ok? <==> seqNo >= 0 && freshness >= 0.0 && (intent.Some? ==> 0 <= intent.value.desiredMode <= 3)
    ensures r.Ok? ==>
              var wanted := if intent.Some? then intent.value else Intent(MODE_LAND_SAFELY, None, None);
              var isFresh := Fresh(vis, visAge, freshness);
              && r.value == PayloadMembers(ContentOf(seqNo, timestamp, wanted, vis, visAge, freshness))
              && (blocked.Some? <==> wanted.desiredMode == MODE_TRACKING && !isFresh)
              && (blocked.Some? ==> blocked.value == if vis.None? then NoVis else StaleVis)
  {
    hide TrackingMembers, IntNumeral, PayloadMembers;
    blocked := None;
    if seqNo < 0 {
      return Err(NegativeSeq), blocked;
    }
    if freshness < 0.0 {
      return Err(NegativeFreshness), blocked;
    }
    var desiredMode, arm, setpoints := MODE_LAND_SAFELY, None, None;
    if intent.Some? {
      desiredMode := intent.value.desiredMode;
      if desiredMode !in {0, 1, 2, 3} {
        return Err(UnknownMode), blocked;
      }
      arm := intent.value.arm;
      setpoints := intent.value.setpoints;
    }
    var isFresh := vis.Some? && visAge.Some? && visAge.value <= freshness;
    if desiredMode == MODE_TRACKING && !isFresh {
      desiredMode := MODE_LAND_SAFELY;
      blocked := Some(if vis.None? then NoVis else StaleVis);
    }
    var payload := [Member("type", Str("CMD")),
                    Member("seq", Num(IntNumeral(seqNo))),
                    Member("timestamp_s", Num(timestamp)),
                    Member("desired_mode", Num(IntNumeral(desiredMode)))];
    if arm.Some? {
      payload := payload + [Member("arm", Bool(arm.value))];
    }
    if setpoints.Some? {
      payload := payload + [Member("setpoints", Obj(setpoints.value))];
    }
    if isFresh {
      payload := payload + [Member("tracking", Obj(TrackingMembers(vis.value)))];
    }
    var wanted := if intent.Some? then intent.value else Intent(MODE_LAND_SAFELY, None, None);
    PayloadInSteps(ContentOf(seqNo, timestamp, wanted, vis, visAge, freshness));
    return Ok(payload), blocked;
  }

  // ------------------------------------------------------------ reading it back

  /** The command a content stands for, with set-points looked up as the scanner sees the keys. */
  function FrameOf(c: Content): CR.CommandFrame {
    CR.CommandFrame(c.seqNo, NumeralValue(c.timestamp), c.mode, c.arm,
                    match c.setpoints case None => CR.NO_SETPOINTS case Some(members) => CM.SetpointsOf(members),
                    match c.tracking case None => None case Some(vis) => Some(TrackingFrame(vis)))
  }

  function TrackingFrame(vis: VisSnapshot): CR.Tracking {
    CR.Tracking(vis.trackingState, NumeralValue(vis.locX), NumeralValue(vis.locY), NumeralValue(vis.boundW),
                NumeralValue(vis.boundH), NumeralValue(vis.confidence), vis.seqNo, NumeralValue(vis.timestamp))
  }

  /** The integers the receiver's 32 bits and its tracking states can hold. */
  predicate Receivable(c: Content) {
    && CR.IsInt32(c.seqNo) && CR.IsInt32(c.mode)
    && (c.tracking.Some? ==> 1 <= c.tracking.value.trackingState <= 4 && CR.IsInt32(c.tracking.value.seqNo))
  }

  ghost predicate AsciiKeys(members: seq<Member>) {
    forall j | 0 <= j < |members| :: Ascii(members[j].key)
  }

  lemma AsciiKey(key: string)
    requires Ascii(key)
    ensures Scanned(key) == key
  {
    ScannedIsExact(key);
  }

  /** The keys the backend writes itself. */
  lemma OwnKeysAreAscii()
    ensures Ascii("type") && Ascii("seq") && Ascii("timestamp_s") && Ascii("desired_mode") && Ascii("arm")
    ensures Ascii("setpoints") && Ascii("tracking") && Ascii("CMD")
    ensures Ascii("tracking_state") && Ascii("loc_x") && Ascii("loc_y") && Ascii("bound_w") && Ascii("bound_h")
    ensures Ascii("confidence") && Ascii("vis_seq") && Ascii("vis_timestamp_s")
  {
  }

  lemma PayloadKeysAreAscii(c: Content)
    ensures AsciiKeys(PayloadMembers(c))
  {
    hide Ascii, TrackingMembers, IntNumeral;
    OwnKeysAreAscii();
    var members := PayloadMembers(c);
    forall j | 0 <= j < |members| ensures Ascii(members[j].key) {
    }
  }

  lemma TrackingKeysAreAscii(vis: VisSnapshot)
    ensures AsciiKeys(TrackingMembers(vis))
  {
    hide Ascii, IntNumeral;
    OwnKeysAreAscii();
  }

  lemma FindsKey(members: seq<Member>, key: string, k: nat)
    requires AsciiKeys(members)
    requires k <= |members| && (forall j | 0 <= j < k :: members[j].key != key)
    requires k < |members| ==> members[k].key == key
    ensures CM.ValueAt(members, key) == if k == |members| then None else Some(members[k].value)
  {
    hide Ascii;
    var f := FirstMember(members, key);
    if f < k {
      AsciiKey(members[f].key);
    } else if k < f {
      AsciiKey(members[k].key);
    }
  }

  lemma TrackingReadsFirst(vis: VisSnapshot)
    ensures var members := TrackingMembers(vis);
            && CM.ValueAt(members, "tracking_state") == Some(Num(IntNumeral(vis.trackingState)))
            && CM.ValueAt(members, "loc_x") == Some(Num(vis.locX))
            && CM.ValueAt(members, "loc_y") == Some(Num(vis.locY))
            && CM.ValueAt(members, "bound_w") == Some(Num(vis.boundW))
  {
    hide CM.ValueAt, IntNumeral, AsciiKeys;
    var members := TrackingMembers(vis);
    TrackingKeysAreAscii(vis);
    FindsKey(members, "tracking_state", 0);
    FindsKey(members, "loc_x", 1);
    FindsKey(members, "loc_y", 2);
    FindsKey(members, "bound_w", 3);
  }

  lemma TrackingReadsLast(vis: VisSnapshot)
    ensures var members := TrackingMembers(vis);
            && CM.ValueAt(members, "bound_h") == Some(Num(vis.boundH))
            && CM.ValueAt(members, "confidence") == Some(Num(vis.confidence))
            && CM.ValueAt(members, "vis_seq") == Some(Num(IntNumeral(vis.seqNo)))
            && CM.ValueAt(members, "vis_timestamp_s") == Some(Num(vis.timestamp))
  {
    hide CM.ValueAt, IntNumeral, AsciiKeys;
    var members := TrackingMembers(vis);
    TrackingKeysAreAscii(vis);
    FindsKey(members, "bound_h", 4);
    FindsKey(members, "confidence", 5);
    FindsKey(members, "vis_seq", 6);
    FindsKey(members, "vis_timestamp_s", 7);
  }

  lemma TrackingReads(vis: VisSnapshot)
    ensures CM.TrackingOf(TrackingMembers(vis))
         == if 1 <= vis.trackingState <= 4 && CR.IsInt32(vis.seqNo) then Some(TrackingFrame(vis)) else None
  {
    hide CM.ValueAt, NumeralValue, IntNumeral, CR.ToInt, TrackingMembers;
    TrackingReadsFirst(vis);
    TrackingReadsLast(vis);
    CM.IntReadsBack(vis.trackingState);
    CM.IntReadsBack(vis.seqNo);
  }

  /** The fields every payload has. */
  lemma PayloadReads(c: Content)
    ensures var members := PayloadMembers(c);
            && CM.ValueAt(members, "type") == Some(Str("CMD"))
            && CM.ValueAt(members, "seq") == Some(Num(IntNumeral(c.seqNo)))
            && CM.ValueAt(members, "timestamp_s") == Some(Num(c.timestamp))
            && CM.ValueAt(members, "desired_mode") == Some(Num(IntNumeral(c.mode)))
  {
    hide CM.ValueAt, IntNumeral, TrackingMembers, AsciiKeys;
    var members := PayloadMembers(c);
    PayloadKeysAreAscii(c);
    FindsKey(members, "type", 0);
    FindsKey(members, "seq", 1);
    FindsKey(members, "timestamp_s", 2);
    FindsKey(members, "desired_mode", 3);
  }

  /** The fields a payload may have. */
  lemma PayloadReadsOptional(c: Content)
    ensures var members := PayloadMembers(c);
            && CM.ValueAt(members, "arm") == (match c.arm case None => None case Some(arm) => Some(Bool(arm)))
            && CM.ValueAt(members, "setpoints") == (match c.setpoints case None => None case Some(m) => Some(Obj(m)))
            && CM.ValueAt(members, "tracking")
               == (match c.tracking case None => None case Some(vis) => Some(Obj(TrackingMembers(vis))))
  {
    hide CM.ValueAt, IntNumeral, TrackingMembers, AsciiKeys;
    var members := PayloadMembers(c);
    PayloadKeysAreAscii(c);
    var setpoints := 4 + |ArmMembers(c)|;
    var tracking := setpoints + |SetpointMembers(c)|;
    FindsKey(members, "arm", if c.arm.Some? then 4 else |members|);
    FindsKey(members, "setpoints", if c.setpoints.Some? then setpoints else |members|);
    FindsKey(members, "tracking", if c.tracking.Some? then tracking else |members|);
  }

  /**
   The round trip of one command: what the backend prints, the flight controller reads back
   field by field. It is refused exactly when an integer does not fit the receiver. Without
   aliases the set-points are those the dict holds under its own keys.
   */
  lemma RoundTrip(c: Content)
    ensures CR.ParseCmd(Print(Obj(PayloadMembers(c)))) == if Receivable(c) then Some(FrameOf(c)) else None
    ensures Unaliased(c) ==> FrameOf(c) == OwnFrame(c)
  {
    FrameIsOwn(c);
    hide Unaliased, OwnFrame, FrameOf;
    ParsesBack(c);
  }

  lemma ParsesBack(c: Content)
    ensures CR.ParseCmd(Print(Obj(PayloadMembers(c)))) == if Receivable(c) then Some(FrameOf(c)) else None
  {
    var members := PayloadMembers(c);
    CM.ParsePrinted(members);
    hide Print, PayloadMembers, TrackingMembers, CM.ValueAt, CR.ParseCmd, IntNumeral, CR.ToInt, NumeralValue;
    hide CM.TrackingOf, TrackingFrame, CM.SetpointsOf, Scanned;
    PayloadReads(c);
    PayloadReadsOptional(c);
    OwnKeysAreAscii();
    AsciiKey("CMD");
    CM.IntReadsBack(c.seqNo);
    CM.IntReadsBack(c.mode);
    if c.tracking.Some? {
      TrackingReads(c.tracking.value);
    }
  }

  /** The flight controller is never sent into tracking without tracking data. */
  lemma TrackingComesWithData(seqNo: nat, timestamp: Numeral, wanted: Intent, vis: Option<VisSnapshot>,
                              visAge: Option<real>, freshness: real)
    ensures var c := ContentOf(seqNo, timestamp, wanted, vis, visAge, freshness);
            var r := CR.ParseCmd(Print(Obj(PayloadMembers(c))));
            r.Some? && r.value.desiredMode == MODE_TRACKING ==>
              vis.Some? && r.value.tracking == Some(TrackingFrame(vis.value))
  {
    hide Print, PayloadMembers, CR.ParseCmd, TrackingFrame, CM.SetpointsOf, NumeralValue;
    RoundTrip(ContentOf(seqNo, timestamp, wanted, vis, visAge, freshness));
  }

  // ------------------------------------------------------ set-points by their own keys

  /** The index of the dict entry stored under `key`, or the number of entries. */
  function EntryOf(members: seq<Member>, key: string): (k: nat)
    ensures k <= |members| && (k < |members| ==> members[k].key == key)
    ensures forall j | 0 <= j < k :: members[j].key != key
  {
    if members == [] || members[0].key == key then 0 else 1 + EntryOf(members[1..], key)
  }

  /** A different key that the scanner mistakes for `key`. */
  predicate Alias(other: string, key: string) {
    other != key && Scanned(other) == key
  }

  /** Only a key with characters that need more than a backslash can be an alias. */
  lemma AliasNeedsEscape(other: string, key: string)
    requires Alias(other, key)
    ensures !Ascii(other)
  {
    ScannedIsExact(other);
  }

  /** The scanner finds the dict's own entry exactly when no alias is stored before it. */
  lemma FindsOwnEntry(members: seq<Member>, key: string)
    requires Ascii(key)
    ensures FirstMember(members, key) == EntryOf(members, key)
       <==> forall j | 0 <= j < EntryOf(members, key) :: !Alias(members[j].key, key)
  {
    AsciiKey(key);
    var f, e := FirstMember(members, key), EntryOf(members, key);
    if f < e {
      assert Alias(members[f].key, key);
    }
  }

  /** The number the dict holds under `key`, if it holds one. */
  function OwnReal(members: seq<Member>, key: string): Option<real> {
    var k := EntryOf(members, key);
    if k < |members| && members[k].value.Num? then Some(NumeralValue(members[k].value.n)) else None
  }

  function OwnSetpoints(members: seq<Member>): CR.Setpoints {
    CR.Setpoints(OwnReal(members, "roll"), OwnReal(members, "pitch"),
                 OwnReal(members, "yaw_rate"), OwnReal(members, "throttle"))
  }

  predicate NoAliasBefore(members: seq<Member>, key: string) {
    forall j | 0 <= j < EntryOf(members, key) :: !Alias(members[j].key, key)
  }

  /** No set-point has an alias stored before it. */
  predicate Unaliased(c: Content) {
    c.setpoints.Some? ==>
      && NoAliasBefore(c.setpoints.value, "roll") && NoAliasBefore(c.setpoints.value, "pitch")
      && NoAliasBefore(c.setpoints.value, "yaw_rate") && NoAliasBefore(c.setpoints.value, "throttle")
  }

  /** The command a content says, with set-points by the dict's own keys. */
  function OwnFrame(c: Content): CR.CommandFrame {
    CR.CommandFrame(c.seqNo, NumeralValue(c.timestamp), c.mode, c.arm,
                    match c.setpoints case None => CR.NO_SETPOINTS case Some(members) => OwnSetpoints(members),
                    match c.tracking case None => None case Some(vis) => Some(TrackingFrame(vis)))
  }

  lemma ReadsOwnEntry(members: seq<Member>, key: string)
    requires Ascii(key) && NoAliasBefore(members, key)
    ensures CM.RealAt(members, key) == OwnReal(members, key)
  {
    hide Ascii, NumeralValue;
    FindsOwnEntry(members, key);
  }

  lemma FrameIsOwn(c: Content)
    ensures Unaliased(c) ==> FrameOf(c) == OwnFrame(c)
  {
    hide CM.RealAt, OwnReal, NoAliasBefore, TrackingFrame, NumeralValue, Ascii;
    SetpointKeysAreAscii();
    if Unaliased(c) && c.setpoints.Some? {
      var members := c.setpoints.value;
      ReadsOwnEntry(members, "roll");
      ReadsOwnEntry(members, "pitch");
      ReadsOwnEntry(members, "yaw_rate");
      ReadsOwnEntry(members, "throttle");
    }
  }

  lemma SetpointKeysAreAscii()
    ensures Ascii("roll") && Ascii("pitch") && Ascii("yaw_rate") && Ascii("throttle")
  {
  }

  /** Keys of printable ASCII are never aliases. */
  lemma AsciiIsUnaliased(c: Content)
    requires c.setpoints.Some? ==> AsciiKeys(c.setpoints.value)
    ensures Unaliased(c)
  {
    hide Ascii;
    if c.setpoints.Some? {
      var members := c.setpoints.value;
      forall j, key | 0 <= j < |members| && Alias(members[j].key, key) ensures false {
        AliasNeedsEscape(members[j].key, key);
      }
    }
  }

  /** A carriage return before `oll` passes for `roll`. */
  lemma AliasOfRoll()
    ensures Alias("\roll", "roll")
    ensures CM.SetpointsOf([Member("\roll", Num(IntNumeral(1)))]).roll == Some(1.0)
    ensures EntryOf([Member("\roll", Num(IntNumeral(1)))], "roll") == 1
  {
    assert Scanned("\roll"[1..]) == "oll" by { AsciiKey("oll"); }
    IntNumeralValue(1);
  }

  // ------------------------------------------------------------------- framing

  function PayloadText(c: Content): (t: string)
    ensures forall i | 0 <= i < |t| :: t[i] as int < 256
    ensures |t| > 0
  {
    PrintIsAscii(Obj(PayloadMembers(c)));
    Print(Obj(PayloadMembers(c)))
  }

  /** `struct.pack(">I", n)`. */
  function PackLength(n: nat): seq<byte>
    requires n < 0x1_0000_0000
  {
    [n / 0x100_0000, n / 0x1_0000 % 256, n / 256 % 256, n % 256]
  }

  function FrameCmdPayload(c: Content): Result<seq<byte>, ValueError> {
    var raw := BytesOf(PayloadText(c));
    if 1 <= |raw| <= MAX_PAYLOAD_BYTES then Ok(PackLength(|raw|) + raw) else Err(LengthOutOfRange)
  }
}
