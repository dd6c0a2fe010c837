# AOT_DRONE: a verified model

AOT_DRONE is a quadcopter stack of four processes. This project models, in Dafny, the hand-written
logic on the path from operator and camera to motor commands, and proves what that logic guarantees
over all inputs and all runs.

- **Command path.** `JsonText` prints commands as the backend does, `JsonLayout` lays any tree out with any
  white space. `FrameCodec` reads frames from a segmented stream. `CommandReceiver` holds the flight
  controller's scanner loops, each proved to compute its function in `Scanner`; `TokenGrammar` says exactly
  what those take for a number or a string. `JsonScan` proves the scanner right on every text of every JSON
  tree although it counts one bracket kind only, `CommandMeaning` turns parsing into looking fields up in
  the tree, and `CmdSchema`, `CommandServer` and `CommandLink` close the round trip from payload to
  published command.
- **MSP link.** `MspFraming` encodes requests and parses replies, `MspDrain` decodes streams cut into any
  pieces, `MspRcSink` writes whole frames with bounded retries.
- **Control loop.** `FlightController` is the mode machine, `ControlLoop` the loop around it with its two
  failsafe latches; `FlightSafety` and `LoopSafety` hold the theorems about all runs, `CommandEffects` what
  each command on the wire does to the next output.
- **Sequence numbers.** `CmdSeq` relates the wrapping numbers to an unbounded counter, across restarts.
- **Vision and limiter.** `VisionPipeline`, `VisionRuns`, `VisionLaws` and `VisContract` cover the vision
  state machine and its contract with the controller, `CameraToMotor` the way from a frame to the motors;
  `RateLimit` is the token bucket.

Classes and methods follow the source's mutating code; every method states its result or new state as a
function of its inputs and old state, and the lemmas are about those functions. Doubles are exact reals
and `static_cast<uint16_t>` is the floor of a non-negative real. Sockets, the serial port, the clock,
the detector and the tracker are arbitrary oracles: parameters, or objects holding the replies to come.

Results that are exact conditions rather than plain promises:

- A set-point key is found as itself exactly when no *alias* precedes it. A key with a control character,
  such as a carriage return followed by `oll`, is an alias of `roll`, because the scanner drops the
  backslash of an escape and keeps the character after it (`CmdSchema.FindsOwnEntry`, `AliasOfRoll`).
  Without aliases, so with keys of printable ASCII, set-points arrive as the dict holds them.
- A whole command is refused exactly when one of its integers does not fit the receiver, the vision
  sequence number included (`CmdSchema.RoundTrip`).
- The loop fails closed exactly when no stale command is accepted into Tracking or Takeoff while the age
  latch is set (`LoopSafety.FailClosedIff`). It lands in every stale time step exactly when none is
  accepted into any other mode but LandSafely (`StaleLandsIff`).
- On a dead link that has lasted five seconds the output is disarmed exactly when the controller was
  landing or unpowered at its start, or the serial sink failed five seconds ago (`DisarmBoundIff`;
  `DeadLinkDisarmsIff` says it for every moment). Only a hold-up beyond 0.5 s can break this: a tick that
  comes late, or a command that comes into place late because the server reads its time before it takes the
  lock, or both together (`LeavesOnlyHeldUp`). So it is enough that the time from a tick's read to the next
  tick's check plus the largest such delay is at most 0.5 s (`FailClosed`, `BoundedDisarm`). After any hold-up
  that makes the first command of a link stale when it is first read, a Manual command leaves the output
  armed for ever (`NeverDisarms`), since the latch acts on edges only.
- Issued sequence numbers increase across backend restarts exactly when no life of the backend, from one
  start to the next, issues more numbers than milliseconds pass until the start of the next life that
  issues any (`CmdSeq.IncreaseIffSeedsAhead`). For any run of the bridge loop and one restart that compares
  two numbers (`RestartIff`); at full speed and more than 1 kHz it fails from some run length on
  (`FastLoopRepeats`).
- Of two different sequence numbers one is always ahead; both are exactly at half the space
  (`CmdSeq.AmbiguousIffHalfway`).
- The throttle map is monotone except exactly from a fraction down to fewer microseconds than it stands
  for (`RcMath.ThrottleFallsIff`).
- A disarm command takes effect at once except exactly during a calibrated takeoff
  (`LoopSafety.DisarmIff`).
- The vision confidence floor keeps the controller following for ever exactly when nothing decays, or the
  floor reaches the controller's minimum and the seed reaches the floor (`VisContract.FloorContractIff`).

## Model

| member | source | states |
|---|---|---|
| JsonText.PrintIsAscii | src/backend/cmd_schema.py:62-66 | every printed payload is printable ASCII, so its UTF-8 bytes are its characters |
| JsonText.IntNumeralValue | src/backend/cmd_schema.py:46-51 | a printed int denotes that int |
| JsonText.MagnitudeLaw | src/fc/implementation/CommandReceiver.cpp:349-361 | what digits, fraction and exponent of a numeral mean, without division |
| JsonLayout.CompactIsPrint | src/backend/cmd_schema.py:62-66 | every tree has its compact text among its texts with blanks |
| JsonScan.StringTokenPrinted | src/fc/implementation/CommandReceiver.cpp:23-53 | a printed string is read as one token whatever follows it |
| JsonScan.ScannedIsExact | src/fc/implementation/CommandReceiver.cpp:32-38 | the token is the string itself if and only if it needs no escape but those of quote and backslash |
| JsonScan.BlankOver | src/fc/implementation/CommandReceiver.cpp:12-17 | every run of the four blanks of RFC 8259 is skipped as a whole |
| JsonScan.CloseText | src/fc/implementation/CommandReceiver.cpp:55-98 | from the bracket of any object or array, with blanks anywhere, the matching close is its last character |
| JsonScan.RunText | src/fc/implementation/CommandReceiver.cpp:62-96 | scanning any text of any tree leaves the bracket depth unchanged |
| JsonScan.NumberPrinted | src/fc/implementation/CommandReceiver.cpp:100-151 | a printed numeral before a delimiter is read as exactly one number token |
| JsonScan.ValueLenText | src/fc/implementation/CommandReceiver.cpp:153-208 | skipping stops exactly behind every text of every tree that a comma, a closing bracket, a blank or the end follows |
| JsonScan.FindKeyText | src/fc/implementation/CommandReceiver.cpp:233-281 | lookup finds the value of the first top-level member with the key and nothing else, in every text of every object, wherever it has blanks |
| JsonScan.ValueAtOffset | src/fc/implementation/CommandReceiver.cpp:233-281 | at the found offset the member's whole value stands, then its blanks and a comma or the end |
| TokenGrammar.ValueEndIff | src/fc/implementation/CommandReceiver.cpp:19-21 | exactly which characters end a value |
| TokenGrammar.NumberIff | src/fc/implementation/CommandReceiver.cpp:100-151 | on any text, exactly what is taken for a number: its grammar, and an end of the value behind it |
| TokenGrammar.StringIff | src/fc/implementation/CommandReceiver.cpp:23-53 | on any text, exactly what is taken for a string, and with which text |
| Scanner.MatchingCloseIsClose | src/fc/implementation/CommandReceiver.cpp:83-92 | on any text a match lies behind the opening bracket and is a closing one |
| CommandReceiver.SkipWs | src/fc/implementation/CommandReceiver.cpp:12-17 | the loop stops at the first character that is none of the six of the C locale's white space, in bounds, on any bytes |
| CommandReceiver.ParseStringToken | src/fc/implementation/CommandReceiver.cpp:23-53 | the loop reads the string token of any text, in bounds |
| CommandReceiver.FindMatchingClose | src/fc/implementation/CommandReceiver.cpp:55-98 | the loop finds the matching close of any text, in bounds |
| CommandReceiver.ParseNumberToken | src/fc/implementation/CommandReceiver.cpp:100-151 | the loops read the number token of any text, in bounds |
| CommandReceiver.SkipJsonValue | src/fc/implementation/CommandReceiver.cpp:153-208 | the value skipper on any text, in bounds |
| CommandReceiver.FindRootObjectSpan | src/fc/implementation/CommandReceiver.cpp:210-231 | the root span of any text, or none |
| CommandReceiver.FindKeyInObject | src/fc/implementation/CommandReceiver.cpp:233-281 | the lookup loop terminates and finds what the lookup function finds, inside the object |
| CommandReceiver.ReadObjectSpan | src/fc/implementation/CommandReceiver.cpp:283-301 | tells an absent key, a value that is no closed object, and an object's span apart |
| CommandReceiver.ReadBoolField | src/fc/implementation/CommandReceiver.cpp:323-347 | reads a boolean field of an object |
| CommandReceiver.ReadTracking | src/fc/implementation/CommandReceiver.cpp:477-532 | all eight tracking fields are needed, with a state from 1 to 4 |
| CommandReceiver.ParseCmdFrame | src/fc/implementation/CommandReceiver.cpp:417-537 | the command of any received text, or its refusal |
| CommandMeaning.TokenValuePrinted | src/fc/implementation/CommandReceiver.cpp:349-361 | the token of a printed numeral reads back as the number it denotes |
| CommandMeaning.IntReadsBack | src/fc/implementation/CommandReceiver.cpp:363-380 | a printed int reads back as itself if it fits 32 bits and is refused otherwise |
| CommandMeaning.ToIntIff | src/fc/implementation/CommandReceiver.cpp:363-380 | a number is taken for an int if and only if it is in range and within a millionth of it |
| CommandMeaning.RootText | src/fc/implementation/CommandReceiver.cpp:210-231 | the root object is found behind blanks if and only if nothing but white space follows it |
| CommandMeaning.ParseText | src/fc/implementation/CommandReceiver.cpp:417-537 | parsing any text of any object is looking its fields up in the tree: blanks mean nothing, nested or quoted text never counts, anything else behind the object refuses it |
| CommandMeaning.ParsePrinted | src/fc/implementation/CommandReceiver.cpp:417-537 | the same for the compact printing |
| CommandMeaning.AcceptedIff | src/fc/implementation/CommandReceiver.cpp:417-537 | exactly which objects are commands: type, number, time and mode, set-points an object, tracking data complete with a state from 1 to 4 |
| CmdSchema.BuildCmdPayload | src/backend/cmd_schema.py:13-59 | when a payload is refused, what it says, and that tracking is downgraded to landing without fresh vision |
| CmdSchema.RoundTrip | src/backend/cmd_schema.py:46-94 | a printed payload is parsed back field by field, without aliases with the set-points of the dict's own keys; refused exactly when an integer does not fit |
| CmdSchema.TrackingComesWithData | src/backend/cmd_schema.py:40-57 | a received tracking command always carries the fresh vision data |
| CmdSchema.FindsOwnEntry | src/fc/implementation/CommandReceiver.cpp:267-270 | a set-point's own entry is found if and only if no alias of its key precedes it |
| CmdSchema.AliasNeedsEscape | src/fc/implementation/CommandReceiver.cpp:32-38 | only keys with characters outside printable ASCII can be aliases |
| CmdSchema.AsciiIsUnaliased | src/fc/implementation/CommandReceiver.cpp:32-38 | a command whose set-point keys are printable ASCII has no aliases |
| CmdSchema.AliasOfRoll | src/fc/implementation/CommandReceiver.cpp:32-38 | a concrete alias: a carriage return before `oll` is taken for `roll` |
| FrameCodec.RecvExact | src/fc/implementation/FrameCodec.cpp:9-19 | fills the buffer with the next bytes of the stream whatever the segments; fails only when it is too short |
| FrameCodec.ReadFrame | src/fc/implementation/FrameCodec.cpp:21-33 | reads the frame at the front of the stream |
| CommandLink.FrameAtIff | src/fc/implementation/FrameCodec.cpp:21-33 | exactly the streams that start with a payload of 1 to the limit behind its length are taken; empty, oversized and cut ones are refused |
| CommandServer.CommandServer.Publish | src/fc/implementation/CommandServer.cpp:176-188 | the stored command and time are always of one publication, the newest |
| CommandServer.CommandServer.ServeConnection | src/fc/implementation/CommandServer.cpp:144-192 | a connection publishes exactly the parsable commands of its frames with their receive times, up to the first bad frame; a clock that never goes back keeps them in order of time |
| CommandServer.CommandServer.LatestCommandWithTime | src/fc/implementation/CommandServer.cpp:214-222 | command and time of the newest publication, never of two |
| CommandServer.CommandServer.SecondsSinceLastCmd | src/fc/implementation/CommandServer.cpp:224-234 | the age of the newest publication, or a very large one before the first |
| CommandServer.SeenLater | src/fc/implementation/CommandServer.cpp:181-222 | a later reader finds at least as much, and anything more has come into place in between |
| CommandLink.FrameRoundTrip | src/backend/cmd_schema.py:62-66 | a framed payload is read back as it was |
| CommandLink.CommandsArrive | src/fc/implementation/CommandServer.cpp:144-192 | every list of commands comes out as it went in: same order, same fields, without aliases the set-points of the dicts' own keys |
| CommandLink.Deliver | src/fc/implementation/CommandServer.cpp:144-192 | the running server publishes them with their receive times however the bytes are cut into segments |
| Bytes.XorInjectiveRight | src/fc/implementation/MspFraming.cpp:5-11 | exclusive or loses nothing: equal results mean equal operands |
| Bytes.XorBits | src/fc/implementation/MspFraming.cpp:5-11 | exclusive or sets exactly the bits in which its operands differ |
| Bytes.MaskIsRemainder | src/fc/header/CmdSeq.h:29-35 | masking with 2^k - 1 is the remainder modulo 2^k |
| MspFraming.XorChecksum | src/fc/implementation/MspFraming.cpp:5-11 | the loop computes the running exclusive or |
| MspFraming.EncodeRequest | src/fc/implementation/MspFraming.cpp:13-37 | a whole valid frame of the payload's first 255 bytes |
| MspFraming.EncodeSetRawRc | src/fc/implementation/MspFraming.cpp:39-53 | a frame of the eight clamped channels, low byte first |
| MspFraming.RcRoundTrip | src/fc/implementation/MspFraming.cpp:39-53 | every channel decodes to the one sent, clamped to 1000..2000 |
| MspFraming.ParseResponse | src/fc/implementation/MspFraming.cpp:55-120 | the incremental parser: frame, bytes to drop and checksum verdict of any buffer |
| MspFraming.ReplyRoundTrip | src/fc/implementation/MspFraming.cpp:55-120 | a whole valid reply parses to its frame whatever follows |
| MspFraming.ChecksumSeesChange | src/fc/implementation/MspFraming.cpp:99-112 | changing one covered byte changes the checksum |
| MspDrain.DrainInTwo | src/fc/implementation/MspRcSink.cpp:261-284 | draining what has arrived and then the rest is draining all at once |
| MspDrain.AnyPieces | src/fc/implementation/MspRcSink.cpp:261-284 | any cutting of the stream gives the same frames, error count and leftover |
| MspDrain.LeftoverIsStuck | src/fc/implementation/MspRcSink.cpp:261-284 | what a drain leaves holds no further frame |
| MspDrain.FeedNext | src/fc/implementation/MspRcSink.cpp:261-284 | one more piece is drained together with the leftover of those before |
| MspDrain.DecodesStream | src/fc/implementation/MspFraming.cpp:55-120 | from frames among garbage exactly the intact frames come out, in order, the damaged ones are counted |
| MspDrain.DamageIsSeen | src/fc/implementation/MspFraming.cpp:106-112 | one wrong command, payload or checksum byte always fails the checksum |
| MspDrain.OneFrameLost | src/fc/implementation/MspFraming.cpp:106-112 | one damaged byte loses that frame only and counts one error |
| MspRcSink.SendsIffEnough | src/fc/implementation/MspRcSink.cpp:184-229 | a frame goes out if and only if, within 32 calls, enough bytes are taken with no failure and no two refusals in a row |
| MspRcSink.Sink.WriteFrame | src/fc/implementation/MspRcSink.cpp:170-230 | at most 32 write calls; writes the whole frame or a strict prefix and then closes for good |
| MspRcSink.Sink.ParseDrain | src/fc/implementation/MspRcSink.cpp:261-284 | the drain loop terminates with the drained frames handled, errors counted, leftover kept |
| MspRcSink.Sink.Poll | src/fc/implementation/MspRcSink.cpp:390-460 | latches the arm switch from the newest reply, clears it after a second of silence, asks again; buffer and error count stay those of feeding all arrivals to the drain |
| MspRcSink.Sink.WriteChannels | src/fc/implementation/MspRcSink.cpp:462-514 | over every run the wire holds the planned frames in order plus at most one cut frame, and buffer and error count are those of all arrivals; closed stays closed and silent |
| MspRcSink.PollShowsSwitch | src/fc/implementation/MspRcSink.cpp:397-440 | after a poll the switch is what the last intact reply to command 105 with ten payload bytes shows, on from 1700; without one it stays, unless it is on and more than a second old |
| MspRcSink.PlanIs | src/fc/implementation/MspRcSink.cpp:462-514 | the plan holds one stick frame for every command, in order, and a query on every tenth tick |
| MspRcSink.BoardReads | src/fc/implementation/MspRcSink.cpp:170-230 | the board reads exactly the frames written whole; a cut frame is never taken for one |
| MspRcSink.BoardSeesChannels | src/fc/implementation/MspRcSink.cpp:494-497 | channels arrive clamped in the order roll, pitch, throttle, yaw, aux1..4 |
| RcMath.AxisMarks | src/fc/header/RcMath.h:27-45 | stick maps hit 1200, 1500 and 1800 and saturate |
| RcMath.AxisIsStraight | src/fc/header/RcMath.h:27-45 | between their ends the stick maps give the microsecond nearest to the straight line |
| RcMath.AxisMonotone | src/fc/header/RcMath.h:27-45 | more stick never gives less deflection |
| RcMath.ThrottleIsNearest | src/fc/header/RcMath.h:52-64 | the throttle map gives the microsecond nearest to what either reading says |
| RcMath.ThrottleFallsIff | src/fc/header/RcMath.h:52-64 | the exact pairs of inputs on which more input gives less throttle; monotone on all others |
| RcMath.ThrottleMarks | src/fc/header/RcMath.h:52-64 | minimum and maximum of both readings |
| FlightController.Controller.ChangeMode | src/fc/implementation/FlightController.cpp:74-97 | mode changes reset timers; entering Manual centres the sticks |
| FlightController.Controller.LandSafely | src/fc/implementation/FlightController.cpp:249-295 | the landing step |
| FlightController.Controller.Takeoff | src/fc/implementation/FlightController.cpp:160-212 | the takeoff step, or a landing step when uncalibrated |
| FlightController.Controller.FollowTarget | src/fc/implementation/FlightController.cpp:347-411 | the follow step |
| FlightController.Controller.Track | src/fc/implementation/FlightController.cpp:301-345 | the tracking step by message state and age |
| FlightController.Controller.TimeStep | src/fc/implementation/FlightController.cpp:424-461 | one time step with clamped dt and its output |
| FlightSafety.OutputIsSane | src/fc/implementation/FlightController.cpp:451-460 | every output is in 1000..2000, and a disarmed one has throttle 1000 |
| FlightSafety.AltHoldMarks | src/fc/implementation/FlightController.cpp:504-542 | the stick law gives 1000, hover and 1800 at -1, 0 and 1 |
| FlightSafety.AltHoldIsMonotone | src/fc/implementation/FlightController.cpp:504-542 | the stick law is monotone and stays within 1000..1800 |
| FlightSafety.ThrottleCeiling | src/fc/implementation/FlightController.cpp:160-461 | after any calls, a tick not in Manual puts out at most 1800 |
| FlightSafety.LandingTick | src/fc/implementation/FlightController.cpp:249-295 | timer, start, arm state and throttle of one landing tick |
| FlightSafety.LandingIsLevel | src/fc/implementation/FlightController.cpp:249-295 | an armed landing is level in angle mode; a disarmed one moves no stick |
| FlightSafety.RampIs | src/fc/implementation/FlightController.cpp:276-295 | the ramp falls 50 microseconds a second from its start, not below 1030, in whole microseconds |
| FlightSafety.LandingRamp | src/fc/implementation/FlightController.cpp:249-295 | with any calls in between, later armed landing ticks follow the one ramp and never rise |
| FlightSafety.LandingStep | src/fc/implementation/FlightController.cpp:249-295 | the descent takes at most 10 microseconds a tick |
| FlightSafety.LandingStartsHere | src/fc/implementation/FlightController.cpp:250-265 | the ramp starts at the larger of its floor and the present throttle capped by a calibrated hover |
| FlightSafety.LandingDisarms | src/fc/implementation/FlightController.cpp:283-287 | once the timer reaches 5 s every later output of the landing is disarmed, whatever re-arms it |
| FlightSafety.TakeoffTick | src/fc/implementation/FlightController.cpp:160-212 | the takeoff profile: 1020 for 0.8 s, a straight climb over 1.6 s, hover, and tracking after 3.4 s |
| FlightSafety.TakeoffClimbs | src/fc/implementation/FlightController.cpp:160-212 | over a run, whatever is interleaved, a takeoff goes on in its profile and never gives less throttle below hover |
| FlightSafety.FollowsIff | src/fc/implementation/FlightController.cpp:301-345 | a Tracking tick follows if and only if the message is on target, at least 0.5 sure and at most 0.8 s old |
| FlightSafety.FollowTick | src/fc/implementation/FlightController.cpp:347-411 | a followed target: yaw to its side, pitch by its size, roll centred, each with its dead band |
| FlightSafety.FollowThrottle | src/fc/implementation/FlightController.cpp:347-411 | throttle leaves hover by half the target's height times the stroke on that side |
| FlightSafety.SearchTick | src/fc/implementation/FlightController.cpp:301-345 | any other Tracking tick hovers, still for a fresh message without a target to follow, turning at 60 degrees a second otherwise |
| FlightSafety.FollowWithoutTarget | src/fc/implementation/FlightController.cpp:347-411 | the follow step without a good message hovers level and forgets its confidence |
| FlightSafety.MessageAges | src/fc/implementation/FlightController.cpp:424-461 | without a new message the one at hand grows older by the clamped time of the ticks, whatever else is called |
| FlightSafety.SilenceEndsFollowing | src/fc/implementation/FlightController.cpp:301-345 | once the last message is more than 0.8 s old a Tracking tick searches, whatever was called since |
| ControlLoop.MainLoop.ApplyControlModeSafely | src/fc/implementation/main.cpp:146-184 | a powered mode needs a healthy sink, no tuning mismatch and a calibrated hover |
| ControlLoop.MainLoop.ApplySetpointOverrides | src/fc/implementation/main.cpp:88-110 | the given set-points replace their channels, the others stay |
| ControlLoop.MainLoop.ApplyTrackingUpdate | src/fc/implementation/main.cpp:112-131 | a known tracking state updates the controller's message |
| ControlLoop.MainLoop.Step | src/fc/implementation/main.cpp:510-608 | one pass of the loop body |
| CommandEffects.CommandedMode | src/fc/implementation/main.cpp:50-67 | the mode after every code of the wire, from every state: which are let in, which are refused, and when a latch overrides them |
| CommandEffects.LandCommandLands | src/fc/implementation/main.cpp:547-550 | a new command with code 2 lands at once, whatever else the tick sees |
| CommandEffects.OutOfRangeIsIgnored | src/fc/implementation/main.cpp:523-533 | a number outside 0 to 2^31 - 1 is never applied |
| CommandEffects.ArmIsSet | src/fc/implementation/main.cpp:557-559 | a commanded arm switch is set before the time step in every mode, and stays without a command |
| CommandEffects.NewModeStartsClocks | src/fc/implementation/FlightController.cpp:74-97 | a change of mode starts the landing and takeoff clocks again, centres the sticks on entering Manual, and keeps everything else |
| CommandEffects.DowngradeLands | src/backend/cmd_schema.py:40-57 | end to end, a tracking request without fresh vision data lands the controller; every other request keeps its code |
| CommandEffects.TrackingByCode | src/fc/implementation/main.cpp:69-86 | the four tracking states of the wire |
| CommandEffects.ManualOutput | src/fc/implementation/main.cpp:88-110 | the output after any Manual command: given set-points, kept channels, centring on entry, arm switch, throttle cut |
| LoopSafety.FailClosedIff | src/fc/implementation/main.cpp:524-608 | every powered step is safe if and only if no stale command is accepted while latched |
| LoopSafety.FailClosed | src/fc/implementation/main.cpp:524-608 | in every run whose ticks are paced and whose commands come into place promptly, Tracking and Takeoff run only calibrated, on a healthy sink, on a command at most 0.5 s old |
| LoopSafety.NewMeansFresh | src/fc/implementation/CommandServer.cpp:181-188 | a command not there at the last read is stale at the next check only if that check, or the command's own way from its time into place, was held up |
| LoopSafety.StaleLandsIff | src/fc/implementation/main.cpp:567-586 | every stale time step lands if and only if no tick accepts a stale command into another mode while the age latch is set |
| LoopSafety.StalePowerHasCause | src/fc/implementation/main.cpp:535-572 | behind every stale step outside LandSafely is such a tick, and the link has been stale since |
| LoopSafety.DeadLinkDisarmsIff | src/fc/implementation/main.cpp:567-608 | exactly when the output of a dead link is disarmed, from any state, with any sink failures on the way |
| LoopSafety.DisarmBoundIff | src/fc/implementation/main.cpp:567-608 | a dead link five seconds old is disarmed at throttle 1000 if and only if it was landing or unpowered at the start, or the sink failed five seconds ago |
| LoopSafety.LeavesOnlyHeldUp | src/fc/implementation/main.cpp:535-572 | a stale command is accepted while latched only if the time from the read before to the check, plus the command's own delay into place, exceeds 0.5 s |
| LoopSafety.BoundedDisarm | src/fc/implementation/main.cpp:567-608 | in every paced and prompt run a silent stale link ends disarmed after 5 s of controller time, from any mode |
| LoopSafety.AskServer | src/fc/implementation/CommandServer.cpp:205-234 | what a tick reads of the running server is the newest command in place and the age of the newest time in place |
| LoopSafety.HoldUpIsUnsafe | src/fc/implementation/main.cpp:567-572 | every hold-up, of a tick or of the server's worker, that makes a link's first command stale when first read flies in Tracking on a stale link; both kinds exist |
| LoopSafety.NeverDisarms | src/fc/implementation/main.cpp:567-572 | after every such hold-up a Manual command leaves the output armed at 1800 on a dead link however much time goes by |
| LoopSafety.ManualPassesThrough | src/fc/implementation/main.cpp:548-560 | in Manual the next output is exactly the operator's sticks |
| LoopSafety.DisarmIff | src/fc/implementation/main.cpp:557-559 | a disarm command disarms the next output except exactly in a calibrated takeoff |
| LoopSafety.OutputReachesBoard | src/fc/implementation/MspRcSink.cpp:494-497 | the encoder's clamp never changes a controller output on its way to the board |
| CmdSeq.SidesAgree | src/fc/header/CmdSeq.h:29-36 | the mask form and the modulo form judge every pair of numbers alike |
| CmdSeq.AcceptedIffNew | src/backend/state.py:17-36 | for two indices closer than half the space, or half the space ahead, a number is accepted if and only if its index is new |
| LoopSafety.AppliesExactlyTheNew | src/fc/implementation/main.cpp:523-538 | over a whole run the loop applies the first sample and then exactly the samples with a new index, through any number of wraps |
| CmdSeq.AmbiguousIffHalfway | src/backend/state.py:31-36 | of two different numbers one is always ahead; both are if and only if they are half the space apart |
| CmdSeq.SharedState.ReserveCmdSeq | src/backend/state.py:249-262 | issues the next index of the unbounded counter, moved forward by a minimum |
| CmdSeq.SharedState.EnsureCmdSeqMinimum | src/backend/state.py:264-268 | moves the unbounded counter forward to the minimum or not at all |
| CmdSeq.Backend | src/backend/state.py:249-262 | what a restarting backend puts on the wire are the issued indices modulo the space |
| CmdSeq.IncreaseIffSeedsAhead | src/backend/state.py:13-14 | across any number of restarts the issued indices strictly increase if and only if no life issued more numbers than milliseconds went by until the next life that issues |
| CmdSeq.IssuedStrictlyIncrease | src/backend/state.py:13-14 | events a millisecond apart are enough for that |
| CmdSeq.LaterIsAccepted | src/fc/implementation/main.cpp:535-538 | whenever the indices increase, a later number is accepted while it is at most 2^30 ahead |
| CmdSeq.RestartIff | src/backend/cmd_bridge.py:125-137 | for any run of the bridge loop and any restart the indices go on increasing exactly when it issued no more numbers than milliseconds passed, or none |
| CmdSeq.FastLoopRepeats | src/backend/cmd_bridge.py:125-137 | a loop at full speed with a period below a millisecond repeats a number after a restart from some run length on, whatever the down time |
| CmdSeq.LoopIsSpaced | src/backend/cmd_bridge.py:125-137 | the paced bridge loop spaces its ticks by its period |
| VisionPipeline.Pipeline.OnDetected | src/vision/vision_pipeline.py:178-222 | the detection-hold step with grace |
| VisionPipeline.Pipeline.OnTracking | src/vision/vision_pipeline.py:224-305 | the tracking step with re-initialisation and decay |
| VisionPipeline.Pipeline.ProcessFrame | src/vision/vision_pipeline.py:143-165 | one frame of the state machine |
| VisionLaws.HitIff | src/vision/vision_pipeline.py:334-366 | a frame shows the held target if and only if the last frame on which the detector was asked did, fewer than detect_every_n ids ago |
| VisionLaws.HitsWithoutGaps | src/vision/vision_pipeline.py:334-336 | with consecutive ids a detection counts until the detector is asked again |
| VisionLaws.DropsIff | src/vision/vision_pipeline.py:178-201 | a held target is dropped if and only if more frames than the grace have missed it in a row |
| VisionLaws.OtherSteps | src/vision/vision_pipeline.py:167-176 | what a detection does when idle or searching, and when tracking is lost |
| VisionLaws.ShowsConfidence | src/vision/vision_pipeline.py:203-268 | on frames with a detection the confidence is the detection's own, cut to 0..1 |
| VisionLaws.TrackerSteps | src/vision/vision_pipeline.py:246-295 | when the tracker is initialised on a detection, and that it moves the box without one |
| VisionLaws.NormalizedIs | src/vision/types.py:48-65 | a box in the picture keeps its centre and size in parts of the picture |
| VisionRuns.AlwaysTidy | src/vision/vision_pipeline.py:297-332 | in every run all tracker caches are cleared outside TRACKING |
| VisionRuns.SwitchIntoTracking | src/vision/vision_pipeline.py:167-222 | every switch into TRACKING follows exactly the needed number of hits, never more than the grace of misses in a row |
| VisionRuns.SearchEnds | src/vision/vision_pipeline.py:307-321 | once a frame of a run enters SEARCHING, max(1, search_n) detection-free frames lead to NO_TARGET and fewer do not |
| VisionRuns.TrackerStretch | src/vision/vision_pipeline.py:280-295 | a tracker-only stretch decays the confidence frame by frame |
| VisionRuns.DecayLaw | src/vision/vision_pipeline.py:280-295 | the closed form of the decayed confidence, with and without the floor |
| VisionRuns.SharedPoints | src/vision/vision_pipeline.py:411-420 | the shared box holds exactly the points in both boxes |
| VisionRuns.IouLaw | src/vision/vision_pipeline.py:411-429 | the ratio times the area covered by either box is the area of the shared box |
| VisionRuns.IouInside | src/vision/vision_pipeline.py:411-429 | a box inside another has the ratio of the areas |
| VisionRuns.IouShifted | src/vision/vision_pipeline.py:411-429 | equal boxes shifted by d have the ratio (w - d) / (w + d) |
| VisionRuns.ReinitsIff | src/vision/vision_pipeline.py:246-268 | an active tracker is re-initialised if and only if the shared area is below the threshold's part of the covered area |
| VisionRuns.IouSymmetric | src/vision/vision_pipeline.py:399-429 | the overlap ratio is symmetric |
| VisionRuns.IouRange | src/vision/vision_pipeline.py:399-429 | it lies in 0..1 and is 1 exactly on equal boxes with an area |
| VisionRuns.UnchangedBoxKeepsTracker | src/vision/vision_pipeline.py:253-261 | an unchanged box never re-initialises an active tracker |
| VisContract.ValidateVisMessage | src/backend/vis_schema.py:55-96 | exactly which messages are refused for range and for values outside tracking, and that the others are zeroed there |
| VisContract.ValidatedIsStable | src/backend/vis_schema.py:61-80 | a validated message is zero outside tracking, hardly moved, and passes again unchanged |
| VisContract.PipelineMessagesPass | src/vision/main.py:538-571 | every pipeline result gives a message that validation accepts unchanged |
| VisContract.NeverLowConfidence | src/fc/implementation/FlightController.cpp:149-158 | with seeds and floor high enough every TRACKING message of any run, validated, printed, parsed and applied, is followed by every Tracking tick until it is 0.8 s old |
| CameraToMotor.MessageArrives | src/vision/main.py:538-571 | in all four vision states the controller's message is the pipeline's result |
| CameraToMotor.MessageShowsBox | src/vision/main.py:558-571 | the message carries the centre and size of the box in the picture |
| CameraToMotor.TargetSteersYaw | src/fc/implementation/FlightController.cpp:347-411 | from camera to motors: the next Tracking tick yaws to the side of the picture on which the box stands |
| VisContract.FloorContractIff | src/vision/vision_pipeline.py:56-68 | exactly when a tracker-only stretch keeps the controller following for ever |
| RateLimit.TokenBucket.Allow | src/backend/rate_limit.py:29-38 | on a forward clock a request is allowed if and only if every window to now has room for it; a clock that steps back refills nothing |
| RateLimit.LevelIsTightest | src/backend/rate_limit.py:29-38 | the token level is the smallest amount free in any window |
| RateLimit.NoWindowOverBudget | src/backend/rate_limit.py:1-9 | no window holds more allowed requests than capacity plus refill |
| RateLimit.SpacedCallsPass | src/backend/rate_limit.py:29-38 | requests a refill period apart always pass |

## Left out

- Sockets, serial open and termios, boot and tuning probes, signals, environment parsing, logging and telemetry: I/O plumbing.
- Rounding of doubles, NaN and infinities, `strtod` range errors: numbers are exact and finite.
- `raw_json` of a parsed command and the last received text: copies of the input.
- Dictionaries with missing or wrongly typed entries on the Python side (intent, vision snapshot, vision message): the model's records have all their fields, with the right types.
- Counters for sent and received messages and the smoothed transmit ratio: bookkeeping that nothing modelled reads.
- One clock reading stands for the several readings within one poll of the serial sink.
- A frame without pixels: frames are assumed to have a positive width and height, where the source raises an error.
- Choosing the best of several detections: the detector oracle answers with the chosen box.
- `reset` of the vision pipeline, which restores its initial state.
- User parameters, tracking configuration, distances, orientation and altitude of the controller: nothing in the loop changes them, so they are constants or absent.
- The dictionary of buckets per address in the rate limiter: each bucket is independent of the others.
- Threads and mutexes: critical sections are single steps, with the time from a clock reading to its critical section, or from one to a clock reading, left open.
- React webapp, WebSocket manager, broadcaster, video hub, camera, JPEG, YOLO and OpenCV wrappers, FastAPI routes.
