# Verified model of openaisg

openaisg is a primary station for AISG v2.0 antenna line devices: an HDLC byte layer (3GPP TS 25.462 over
ISO/IEC 13239, with the check sequence and the transparency rule of RFC 1662), a stop-and-wait link with
window size 1 in Normal Response Mode, and one worker thread that owns the serial port. This project models
that stack in Dafny and proves what it is for: corrupted bytes are noticed, a stream is understood the same
however it is cut, what a device sends arrives in order without duplicate or gap through losses, repetitions and
timeouts of every kind, a command is accepted once and in order and its answer is its own as long as no exchange
times out unacknowledged or begins while an answer like its own is owed, and a collision on the bus is resolved
completely. Between a command that timed out acknowledged and the next one there is a completed drain or a fresh
connection; what that drain is worth is proved too, and it is less than the code says of it.

`dafny verify dfyconfig.toml` checks everything. Code that changes things step by step (`Deframer.feed`,
`exchange`, `scan`, the worker, the alarm tracker, the event bus, the test suite's secondary) is a class or a
method with loops whose contract equates the new state with a function of the old; what the program promises is
then proved of those functions, over every input and every run, and each function is fixed besides by what it gives
in the octets, codes, limits and times that the program's own text names (sections "by value" and "octet by octet",
Reactions.dfy, WorkerSteps.dfy).

| file | models |
|---|---|
| Numbers.dfy, Wrappers.dfy | minimum and maximum; a value that may be missing |
| Bits.dfy, Fcs.dfy | exclusive or on numbers; the FCS-16, bit by bit and by table |
| Framing.dfy, Deframer.dfy | byte stuffing, frames, the one-shot parser; the incremental deframer |
| Control.dfy, Xid.dfy | control bytes; XID parameter lists |
| Link.dfy, Exchange.dfy | peers, connect, disconnect, the exchange loop; what every exchange keeps |
| Reactions.dfy | what an exchange does with each frame and each moment, in the numbers of the wire and the clock |
| Secondary.dfy, Lockstep.dfy | the strict secondary; both stations over lossy lines, step by step |
| Agreement.dfy, JointRuns.dfy | the invariant every joint step keeps; what it means for every run, and that runs are exchanges |
| Schedules.dfy | the runs the loop of one exchange can have: reads, sleeps and the clock |
| Hazards.dfy | the ways a joint run goes wrong, each with its exact condition and a run that gets there |
| Watching.dfy, Quarantine.dfy | the keep-alive poll and the drain of an idle link; what the drain achieves, exactly |
| Scan.dfy | the bisecting device scan |
| WorkerModel.dfy, Worker.dfy, WorkerRuns.dfy | the worker's steps, the worker, what every run of it keeps |
| WorkerSteps.dfy | what each turn of the worker does, state by state and in numbers; how a run leaves the backoff |
| Alarms.dfy, Events.dfy | the alarm tracker; the event bus |

## What is assumed

- Bytes are integers from 0 to 255, times are integers (milliseconds), and a clock never runs backwards where a
  lemma says so (`Exchange.Clocked`). What a read returns, when, and what any call into the device, the port or
  the queue's clients does, is arbitrary.
- The joined stations start right after a successful `connect`; the two lines are first-in first-out and may
  lose or repeat any frame at any time. An exchange may begin whenever none is under way, and after any timeout the
  next one may follow. The lockstep of commands needs that no exchange times out unacknowledged, and that none begins
  while the secondary owes a payload it would take for its own answer or with a router that takes reports for answers
  (`JointRuns.Doubtful`); without the first it can fail (`RefusedYetAcknowledged`), and while something is owed as well
  (`EarlyReturnExactly`). The delivery of what the device sends needs none of this, only that no request is written
  again while V(R) is seven past its N(R) modulo eight, the one distance at which a report can be lost
  (`MisleadsExactly`, `ReportLost`).
- What is proved of all runs allows more of them than the loop has: a frame may be handled as soon as it is on the
  line. Runs that show something going wrong are schedules of the loop (`Schedules.Schedule`): a read takes all it
  returns before the first frame is handled, a read without a frame lasts the polling interval, the exchange sleeps
  that long after each poll, and the clock never runs backwards.
- The secondary is the strict one of the test suite, extended as window size 1 requires: it offers its
  outstanding I-frame again until N(R) acknowledges it (window 1). It may answer with any S-frame where the test
  double uses RR, take any time over a command, and report at any time it is polled.
- On the scanned bus a probe nobody matches gives nothing, one match gives that device, and two or more garble
  each other into a `FrameError`. Unique IDs are compared as if padded with zeros.
- One pass of the worker's loop is one step; `submit`, `cancel`, `lease` and `unlease` come between passes.

## Where the code differs from its documentation or from what one might expect

- `docs/protocol.md:43` calls `_apply_ack` the only writer of V(S). It is not: an answer taken before any
  acknowledgement advances V(S) as well (`openaisg/link.py:451-452`). `ExchangeOutcomes` states where V(S) ends.
- After an unacknowledged timeout the link is used on as it is. If the request had got through, V(S) is one behind
  the device's V(R) (`DoubtOnlyAfterUnackedTimeout`, `UnackedHappens`): the device refuses the next request, and the
  N(R) of the refusal acknowledges it (`openaisg/link.py:421`), so a command that was never accepted counts as
  acknowledged, is not written again, and times out as one the device is still working on (`RefusedYetAcknowledged`).
- `docs/protocol.md:50` says a request is resent only when N(R) still asks for it. A REJ or SREJ brings it again
  whatever its N(R) is, unless that N(R) acknowledges (`openaisg/link.py:428-436`). `ResendOnFrame` and
  `ResendAfterRead` give the exact conditions.
- A request is resent with the bytes it was first sent with (`openaisg/link.py:392`, `openaisg/link.py:435`), so
  with the N(R) of that time. If V(R) has moved on by seven, or fifteen, and so on, that number acknowledges the
  I-frame the device is offering, and only then (`MisleadsExactly`): the device lets go of a report never taken
  (`SevenIsTooMany`), which happens on a run from `connect` (`SevenHappen`, `ReportLost`), and nothing more is
  taken until the worker drains the link (`NothingUntilDrained`). Resends at any other distance are harmless
  (`InboundDelivery`), and commands stay in lockstep even then (`CommandLockstep`).
- A response is told from a stale one only by its procedure code (`openaisg/session.py:89-107`). From every state
  an exchange can return before its request has been heard if and only if the device owes an answer with that
  code, on the line, on offer or still being worked on (`EarlyReturnExactly`); an acknowledged timeout leads there
  (`LateAnswerHappens`).
- The drain after such a timeout promises that a late response is not taken for the next command's
  (`openaisg/session.py:712-713`), and to poll for it. It reads before it has polled and ends at the first empty
  read (`openaisg/session.py:717-719`), and in Normal Response Mode a device still at work, not asked, says nothing.
  When the reads have come up empty, the next command can be answered with the old response if and only if the
  device is still working on it or still offers it (`QuarantineExactly`); a drain of a silent link changes nothing
  (`SilentDrain`), and for every request it comes to that on a run from `connect` (`QuarantineFails`).
- Only a command's acknowledged timeout leads to a drain. An alarm poll (`openaisg/session.py:680`), the entry actions
  (`openaisg/session.py:626`) and the sweep over the device's data (`openaisg/session.py:168`) log such a timeout or
  pass over it, and go on with the answer owed. After an alarm poll the state is still connected unless a duty cycle
  gives the link back or the keep-alive ends it (`PollTimeoutNotDrained`), and the next command starts at once
  (`StartedAtOnce`).
- A drain acknowledges and drops whatever I-frame comes (`openaisg/session.py:721-724`), reports included: what
  counts as delivered between the stations may then never reach the alarm tracker (`Watching.Drain` says what is
  dropped; the keep-alive hands reports on).
- A client of the event stream is subscribed before its replay is taken (`api/app.py:379-385`), so what is published
  in between reaches it twice, and nothing else does (`ReplayThenQueueHasNoGap`).
- A frame longer than `max_frame` survives one `feed` but not every way of cutting it; chunk invariance holds
  exactly for streams whose runs fit (`ChunkInvarianceExact`).
- A command that raises anything but an `AisgError` - or a `LinkReset` whose disconnect then throws - leaves its
  future running at the head of the queue, and from then on every pass of the loop ends in the exception handler
  (`StuckExactlyByEscape`, `StuckForEver`).
- `FrameError` is not an `AisgError`, so it escapes `_release`; if it does so inside the exception handler the
  thread dies (`PassOwned` says exactly when, pass by pass).
- `_teardown` settles everything but a command held at the head (`TeardownFinishesAllButHead`).
- The backoff is kept only by its own state. A step opens the port exactly when no lease is in force, the state is
  closed, busy, lost, without devices or leased, and something asks for the link, whatever time the backoff was to
  last (`OpensExactly`); a duty-cycled poll, a busy port and a lease each lead past it (`DutyCycleSkipsBackoff`,
  `BusyPortSkipsBackoff`, `LeaseSkipsBackoff`).

## Model

| member | source | states |
|---|---|---|
| Fcs.BuildTable | openaisg/hdlc.py:24-29 | the table holds, for every byte, what eight bit-wise shifts of it leave |
| Fcs.UpdateFcs | openaisg/hdlc.py:32-36 | one table lookup is eight bit steps with the byte's bits fed in |
| Fcs.Fcs16 | openaisg/hdlc.py:32-36 | the table-driven loop computes the bit-by-bit check sequence of the whole input, complemented |
| Fcs.BytesAreBits | openaisg/hdlc.py:24-36 | running the register byte by byte and bit by bit, least significant first, ends in the same register |
| Fcs.BitStepInjective | openaisg/hdlc.py:24-29 | a shift step is injective, so no two registers are ever merged |
| Fcs.ResidueLaw | openaisg/hdlc.py:153-159 | a body passes the frame check if and only if it leaves the register at 0xF0B8 |
| Fcs.FcsAccepted | openaisg/hdlc.py:64-68 | anything followed by its own check sequence passes |
| Fcs.BurstDetected | openaisg/hdlc.py:153-159 | of two bodies of one length that differ only inside sixteen consecutive bits at most one passes |
| Fcs.AdjacentBytesDetected | openaisg/hdlc.py:153-159 | the same for damage confined to two adjacent bytes, check sequence included |
| Fcs.CheckValue | openaisg/hdlc.py:32-36 | the check sequence of the nine digits is 0x906E, the check value of this code |
| Fcs.CheckSnrm | openaisg/hdlc.py:32-36 | that of SNRM to address 1 is 0xB08D |
| Fcs.ZeroInFront | openaisg/hdlc.py:32-36 | a zero octet in front of any data changes its check sequence |
| Framing.StuffBytes | openaisg/hdlc.py:39-47 | the loop computes the stuffed form |
| Framing.UnstuffBytes | openaisg/hdlc.py:50-61 | the loop with its escape flag computes the unstuffed form, a trailing escape included |
| Framing.StuffHidesFlags | openaisg/hdlc.py:39-47 | stuffed data never contains a flag |
| Framing.UnstuffStuff | openaisg/hdlc.py:39-61 | unstuffing undoes stuffing on every byte string |
| Framing.EscapedOctets | openaisg/hdlc.py:39-47 | 0x7E goes out as 7D 5E, 0x7D as 7D 5D, any other octet as itself |
| Framing.EscapeTaken | openaisg/hdlc.py:50-61 | behind 0x7D any octet is taken with bit 5 toggled; with none behind it it is dropped |
| Framing.BuiltSnrm | openaisg/hdlc.py:64-68 | SNRM to address 1 is 7E 01 93 8D B0 7E on the line |
| Framing.JudgeExactly | openaisg/hdlc.py:87-92 | a chunk is taken for a frame if and only if it unstuffs to that frame's body, and passed over if and only if that is under four octets |
| Framing.JudgeBuilt | openaisg/hdlc.py:64-92 | the receiver's judgement of what `build_frame` puts between flags is that very frame |
| Framing.ParseFrames | openaisg/hdlc.py:75-92 | the loop over the split stream yields the frames before the first bad chunk and says whether there was one |
| Framing.ParseStopsAtBad | openaisg/hdlc.py:75-92 | the parser gives exactly the good frames before the first bad check sequence and fails exactly when there is one |
| Deframing.Deframer.Partial | openaisg/hdlc.py:112-123 | true exactly when something but flags is buffered |
| Deframing.Deframer.Take | openaisg/hdlc.py:150-159 | one chunk is skipped, delivered or counted as the judgement of it says |
| Deframing.Deframer.Feed | openaisg/hdlc.py:125-159 | the in-place buffer loop delivers the frames, counts the errors and keeps the tail that one scan of old buffer plus new bytes has |
| Deframing.FeedReachable | openaisg/hdlc.py:125-159 | after any feed a flag can stand only at the start of the buffer, or there is none and it fits; its length is bounded by the limit and the last read |
| Deframing.ChunkInvariance | openaisg/hdlc.py:125-159 | however a stream whose runs fit is cut into reads, frames and error count are those of one read |
| Deframing.OverlongRunLost | openaisg/hdlc.py:140-148 | a meaningful run that does not fit is lost when a read ends just before its closing flag |
| Deframing.CutToFit | openaisg/hdlc.py:130-144 | of noise that does not fit the last octet is kept, of an open run all but its flag |
| Deframing.ChunkInvarianceExact | openaisg/hdlc.py:125-159 | chunk invariance over all cuttings holds if and only if every meaningful run fits |
| Deframing.ScanIsInterior | openaisg/hdlc.py:125-159 | on any stream the deframer sees exactly the chunks between two flags, unlike the parser, which also reads the two ends |
| Deframing.ParserAgreesUpToBad | openaisg/hdlc.py:75-159 | on a stream that starts and ends with a flag the parser yields the deframer's frames up to the first bad chunk |
| Deframing.LineRoundTrip | openaisg/hdlc.py:64-159 | frames sharing flags or padded with any number of them come back exactly, leaving one flag buffered |
| Deframing.SentIsLine | openaisg/hdlc.py:64-68 | frames as `build_frame` writes them back to back are such a line |
| Deframing.RoundTrip | openaisg/hdlc.py:64-159 | both receivers recover any sent list of frames that fits, the deframer from any cutting of it |
| Deframing.Resynchronises | openaisg/hdlc.py:125-159 | after any buffer whatever a good frame is delivered last and a feed keeps one flag, unless nothing may be kept; after a reachable buffer at most one thing precedes it |
| Control.IControlRoundTrip | openaisg/link.py:385 | N(S), N(R) and the poll bit put into an I-frame's control byte are read back from it |
| Control.SControlRoundTrip | openaisg/hdlc.py:176-195 | kind, N(R) and P/F of a supervisory control byte are read back from it |
| Control.UFramesAreUnnumbered | openaisg/hdlc.py:179-185 | every U-frame code is classified as unnumbered and survives masking the P/F bit |
| Control.ControlByte | openaisg/hdlc.py:176-195 | the control byte is the sum of its fields: even for I, 3 modulo 4 for U, and 1, 5, 9, 13 below the P/F bit for RR, RNR, REJ, SREJ |
| Control.UnnumberedCodes | openaisg/hdlc.py:15-22 | the octets of SNRM, XID, UA, DISC, DM and FRMR, without and with the P/F bit |
| Xid.Encode | openaisg/hdlc.py:212-217 | fails exactly when a value or the field does not fit its length octet, else header, length and field |
| Xid.Decode | openaisg/hdlc.py:220-231 | an error exactly without the header; otherwise it ends and leaves each parameter's last value |
| Xid.RoundTrip | openaisg/hdlc.py:212-231 | decoding an encoded list reads the same list, whatever follows the field |
| Xid.LastValueCounts | openaisg/hdlc.py:226-230 | for a parameter given several times the last value is the one in the map |
| Xid.OnlyGivenKeys | openaisg/hdlc.py:226-230 | the map has exactly the parameters given |
| Xid.Reencoded | openaisg/hdlc.py:212-231 | unless a value is cut short, a field is what its own parameters encode to, up to an odd last octet |
| Xid.EncodedOctets | openaisg/hdlc.py:212-217 | one parameter is encoded as 81 F0, the length of the rest, identifier, length and value |
| Xid.HeaderOctets | openaisg/hdlc.py:221-224 | the header is 81 F0 and a length, and the field reads no further than that says |
| Xid.TriplesFromFront | openaisg/hdlc.py:225-231 | a value ends where its length says or with the field; less than two octets are no triple |
| Scan.MaskBits | openaisg/link.py:225-230 | at depth d the mask selects exactly the first d bits |
| Scan.MaskGrows | openaisg/link.py:225-230 | setting the next bit, in a new octet when the last one is full, gives the mask of depth d + 1 |
| Scan.SpellsTrue | openaisg/link.py:229-235 | the ID asked for spells the path taken, with zeros after it |
| Scan.MatchIsAgreement | openaisg/link.py:195-211 | a device matches ID and mask exactly when its first d bits are the path |
| Scan.Scanner.Probe | openaisg/link.py:217-235 | the recursion finds, probes and gives up as bisection on paths does |
| Scan.Scanner.Scan | openaisg/link.py:213-237 | the whole scan is bisection from the empty path |
| Scan.ResolvedWhenApart | openaisg/link.py:217-235 | below any path the scan resolves if and only if no two devices share a prefix of full depth |
| Scan.FindsAll | openaisg/link.py:213-237 | every matching device is found as often as it is on the bus, and nothing else |
| Scan.FindsInOrder | openaisg/link.py:213-237 | devices come in ascending order of unique ID |
| Scan.ProbesByCollisions | openaisg/link.py:217-235 | a resolved scan makes twice its collisions plus one probes, one given up makes fewer than twice |
| Scan.ScanFindsEveryDevice | openaisg/link.py:213-237 | success if and only if the IDs differ pairwise in their first `max_depth` bits, and then every device exactly once, ascending, after 2*collisions+1 probes |
| Scan.FirstSplits | openaisg/link.py:224-230 | the first split asks with mask 80, one in a used octet sets its next bit, and after a full octet with mask FF 80 |
| Scan.BelowInOctets | openaisg/link.py:213-237 | the order the devices come in is that of their octets, the first octet counting most |
| Link.AisgLink.Peer | openaisg/link.py:148-151 | a peer is created once, fresh and reset, and never shared between addresses |
| Link.AisgLink.Connect | openaisg/link.py:253-262 | only a UA from this address connects, and then resets this peer alone; otherwise nothing changes |
| Link.AisgLink.Disconnect | openaisg/link.py:264-268 | any answer that parses resets and disconnects this peer alone |
| Link.AisgLink.Exchange | openaisg/link.py:373-493 | the loop over any script of reads and clock readings is the step function run on this peer's state; other peers are untouched |
| Link.Attempt.AckedBy | openaisg/link.py:358-371 | V(S) advances exactly when N(R) is one past the frame sent |
| Link.Attempt.TakeFrame | openaisg/link.py:401-463 | one received frame changes the exchange as the step function says |
| Link.Attempt.TakeUnnumbered | openaisg/link.py:411-421 | DM and FRMR reset the peer and end the exchange, other U-frames change nothing |
| Link.Attempt.TakeSupervisory | openaisg/link.py:421-436 | RNR is counted, REJ and SREJ resend an unacknowledged request while retries last |
| Link.Attempt.TakeInformation | openaisg/link.py:438-463 | out of sequence is re-acknowledged, in sequence is taken and routed, with the deadline moved for a report |
| Link.Attempt.AfterRead | openaisg/link.py:465-493 | resend, time out or poll, in that order of preference |
| Link.Attempt.TakePass | openaisg/link.py:400-493 | one round of the loop: the frames of a read, then what follows it unless the exchange has ended |
| Exchange.ExchangeOutcomes | openaisg/link.py:384-493 | over every script: the request is written one to four times and never altered, V(R) counts what was taken, reports are handed on once and in order, and V(S) ends as the outcome says |
| Exchange.ReturnedAnswersRequest | openaisg/session.py:89-107 | a returned payload starts with the procedure code asked for |
| Reactions.AnswerReturned | openaisg/link.py:447-453 | over the whole exchange: an I-frame in sequence with the procedure code asked for, and no report, is acknowledged without a poll and returned |
| Reactions.InSequence | openaisg/link.py:438-463 | what becomes of every I-frame in sequence: an answer is returned, a payload starting with 07 or 85 is handed on as a report and moves the deadline, any other is dropped, the last two with a poll |
| Reactions.OutOfSequence | openaisg/link.py:439-446 | with any other N(S) nothing is taken or handed on, and V(R) is said again with a poll |
| Reactions.LinkEnds | openaisg/link.py:409-419 | the octets 0F, 1F, 87 and 97 reset the peer and end the exchange, every other U-frame does nothing |
| Reactions.ResetEnds | openaisg/link.py:401-419 | an exchange that reads one of them from its peer ends in that read, with a reset unless it returned before |
| Reactions.Foreign | openaisg/link.py:402-404 | a frame of another address is counted and does nothing else |
| Reactions.Supervisory | openaisg/link.py:421-436 | RR, RNR, REJ and SREJ by their octets: what each does to acknowledgement, V(S), repeats and statistics |
| Reactions.SentOctets | openaisg/link.py:385 | the control bytes of request and RR in numbers, the request with the poll bit |
| Reactions.AnswersSnrm | openaisg/link.py:253-262 | the octets 63 and 73 from the station called, and no other frame, answer SNRM |
| Exchange.NoResendAfterAck | openaisg/link.py:428-436 | once acknowledged the request is never written again |
| Exchange.ResendOnFrame | openaisg/link.py:401-436 | a received frame brings the request again if and only if it is an unacknowledging REJ or SREJ of the peer, no acknowledgement was seen and a retry is left |
| Exchange.ResendAfterRead | openaisg/link.py:465-485 | a read is followed by the request again if and only if an N(R) asked for it, unacknowledged, its second over and a retry left |
| Exchange.SilenceNeverResends | openaisg/link.py:465-485 | without a frame that asks for it the request is never repeated, however long the silence |
| Reactions.SilentRead | openaisg/link.py:465-493 | with nothing heard the first read ends in a poll, past the timeout in giving up, never in a repeat |
| Reactions.AfterASecond | openaisg/link.py:465-485 | asked for by N(R) the request goes out again exactly when more than a second has passed, and the next not before another |
| Reactions.OneRepeatPerAsking | openaisg/link.py:480-485 | after a repeat silence brings no other, however long it lasts |
| Reactions.FourTimes | openaisg/link.py:395-398 | a device that keeps asking gets the request four times in all, and polls from then on |
| Exchange.PollBudget | openaisg/link.py:395-400 | the deadline never moves in, moves out by at most four intervals a report and never past now plus timeout; a pass that neither ends nor polls uses up a resend |
| Exchange.ExchangeTerminates | openaisg/link.py:395-493 | with k reports at most 1 + timeout/interval + 4k polls, and over after three passes more than that |
| Secondary.FakeSecondary.Answer | tests/fake_secondary.py:195-222 | what the station owes goes out in priority order, its outstanding I-frame first |
| Secondary.FakeSecondary.Receive | tests/fake_secondary.py:142-184 | a command is accepted only in sequence, a frame without the poll bit is not answered, SNRM resets |
| Secondary.HearsUnnumbered | tests/fake_secondary.py:143-157 | SNRM resets the station, DISC disconnects it, both answered with UA, also by broadcast; other U-frames and other addresses do nothing |
| Secondary.HearsCommand | tests/fake_secondary.py:159-176 | a command with the N(S) expected is taken in and answered, outstanding frame first, then report, then response; any other is refused with the old N(R) |
| Secondary.HearsSupervisory | tests/fake_secondary.py:178-184 | a station that is not polled says nothing |
| Agreement.WhoFrees | tests/fake_secondary.py:142-184 | a frame that frees the outstanding I-frame was written past it, or is a request seven short of it, modulo eight |
| Agreement.HeardNextCommand | tests/fake_secondary.py:159-184 | with the count of commands not in doubt, the secondary accepts the next command, as one counting without bound would |
| Agreement.HeardOldCommand | tests/fake_secondary.py:170-175 | with the count of commands not in doubt, a command accepted before is refused, as by one counting without bound |
| Agreement.KeepsUnderStart | openaisg/link.py:384-398 | beginning an exchange keeps the joint invariant |
| Agreement.KeepsUnderHears | openaisg/link.py:401-463 | any reply heard inside an exchange keeps it, and never costs the link |
| Agreement.KeepsUnderTicks | openaisg/link.py:465-493 | resending, polling and timing out keep it; only an unacknowledged timeout puts the count of commands in doubt |
| Agreement.KeepsUnderIdleTakes | openaisg/session.py:697-724 | a keep-alive read and a drain, which takes any I-frame, keep it |
| Agreement.KeepsUnderAnswers | tests/fake_secondary.py:142-222 | any frame the secondary hears, old or repeated, keeps it |
| Agreement.KeepsUnderLoss | openaisg/link.py:321-356 | losing or repeating any frame on either line keeps it |
| JointRuns.CommandLockstep | openaisg/link.py:373-493 | on every run from `connect` on which no exchange times out unacknowledged or begins unguarded: between exchanges V(S) is the secondary's V(R) and each request was accepted exactly once, in order; acknowledged means accepted |
| JointRuns.StaleExactly | openaisg/link.py:465-485 | a run counts as stale exactly when some step of it writes a request again seven past its N(R) |
| JointRuns.DoubtExactly | openaisg/link.py:486-487 | the count of commands is in doubt exactly when some step of the run gave up unacknowledged or began an exchange unguarded |
| JointRuns.InboundDelivery | openaisg/link.py:438-463 | on every run from `connect` without such a step, through timeouts of every kind and whatever is owed: the payloads taken are the secondary's I-frames in order, without duplicate or gap, but for the one still on offer |
| JointRuns.AnsweredMeansAccepted | openaisg/link.py:446-453 | on the runs of CommandLockstep an exchange that returns had its request accepted, returns the very response the secondary gave to that request, and leaves V(S) at the secondary's V(R) |
| JointRuns.DoubtOnlyAfterUnackedTimeout | openaisg/link.py:486-487 | only an unacknowledged timeout or an unguarded beginning ends lockstep; after such a timeout V(S) is still right if and only if the request was not accepted, and one behind if and only if it was |
| JointRuns.LineCarriesTheWrites | openaisg/link.py:309-319 | every step of the primary adds to the line, frame by frame, what it wrote: first and repeated requests, acknowledgements and polls |
| JointRuns.ExchangeIsRun | openaisg/link.py:400-493 | an exchange over any script of reads, with the other station's steps in between, is a run, and ends where the loop on that script does: state, payloads taken, frames written |
| JointRuns.WholeExchange | openaisg/link.py:373-493 | the same from its first frame, whatever the statistics were |
| Schedules.ScheduleIsPlayed | openaisg/link.py:400-493 | every schedule that ends with its exchange or between two reads is the loop run on some script of reads, the other station's steps in between |
| Hazards.MisleadsExactly | openaisg/link.py:392-398 | a frame frees an I-frame not taken when it was written if and only if that is the one at V(R) and its N(R) is seven short modulo eight |
| Hazards.SevenIsTooMany | openaisg/link.py:465-485 | written again at that distance while an I-frame is on offer, the request makes the secondary drop it; with no copy under way it cannot be delivered |
| Hazards.SevenHappen | openaisg/link.py:465-485 | such a state is reached from `connect` on a schedule of the loop |
| Hazards.ReportLost | openaisg/link.py:465-485 | and such a schedule ends with a report sent, not taken and not to be delivered |
| Hazards.NothingUntilDrained | openaisg/session.py:685-728 | from then on nothing more is taken on any run without a drain, past timeouts of every kind |
| Hazards.RefusedYetAcknowledged | openaisg/link.py:421 | with V(S) one behind the device's V(R) every next request is refused, and every refusal acknowledges it |
| Hazards.UnackedHappens | openaisg/link.py:486-487 | such a state is reached from `connect` on a schedule of the loop whose acknowledgement and polls are lost |
| Hazards.EarlyReturnExactly | openaisg/session.py:89-107 | from every state between exchanges with the count of commands not in doubt, and for every call that takes no report for its answer, some continuation returns before the request is heard if and only if an answer it would take is owed; then one on a schedule of the loop does, whenever it begins and with any polling interval that fits twice into the timeout, and V(S) runs ahead |
| Hazards.GivesUpRun | openaisg/link.py:486-487 | an exchange that keeps to a schedule of its loop and gives up, acknowledged or not, is a run |
| Hazards.LateAnswerHappens | openaisg/link.py:486-487 | for every request, an acknowledged timeout after polls to the end of its time, on a schedule from `connect`, leaves such an answer owed, with both lines empty |
| Watching.KeepalivePoll | openaisg/session.py:685-709 | the loop takes I-frames in sequence only, acknowledges without inviting, and stops at DM or FRMR |
| Watching.Drain | openaisg/session.py:711-728 | until its time is up or a read is empty, the loops take any I-frame, drop it, move V(R) past it and ask for more |
| Watching.IdleStepIsWatching | openaisg/session.py:685-728 | on every run the joined stations' step between exchanges is what these loops do with one frame |
| Watching.KeepaliveOctets | openaisg/session.py:691-704 | by the octets: DM and FRMR of the station end it, an I-frame with N(S) = V(R) is acknowledged without a poll, nothing else counts |
| Watching.KeepaliveNotices | openaisg/session.py:691-698 | a keep-alive finds the link lost if and only if the read holds a DM or FRMR of the station |
| Watching.DrainOctets | openaisg/session.py:721-724 | a drain moves V(R) past any I-frame and acknowledges it with a poll |
| Watching.DrainReadsOn | openaisg/session.py:714-719 | a drain reads on until a second and a half has passed or a read is empty, and no further |
| Quarantine.QuarantineExactly | openaisg/session.py:711-728 | when a drain has read the line empty, the next command can return before it is heard if and only if the device is still working on, or still offering, a payload it would take, with nothing let go of ahead of V(R) |
| Quarantine.SilentDrain | openaisg/session.py:717-719 | a drain with no command on its way and no I-frame on the line leaves both stations as they were, and owed what was owed |
| Quarantine.QuarantineFails | openaisg/session.py:711-728 | for every request, on a run from `connect` through an acknowledged timeout the drain reads nothing and ends, the answer is still owed, and the same request sent at any time next can return it before it is heard |
| Alarms.OnlyZeroIsOk | openaisg/retap.py:44-71 | every return code but 0 names an alarm |
| Alarms.Sorted | openaisg/session.py:145-148 | the names come in strictly ascending order, each once |
| Alarms.AlarmTracker.Snapshot | openaisg/session.py:140-150 | a snapshot sets what is active and reports what is new, then what is gone, each sorted; a silent one reports nothing |
| Alarms.AlarmTracker.Indicate | openaisg/session.py:152-156 | an indication adds the names of its codes and reports the new ones |
| Alarms.ReportsOnce | openaisg/session.py:140-150 | what is emitted is settled by the set before and the set after |
| Alarms.EdgesTellTheState | openaisg/session.py:137-156 | between silent baselines folding the events over the baseline gives what is active, and each alarm's events alternate |
| Alarms.RepeatIsSilent | openaisg/session.py:129-156 | the same report twice emits nothing the second time |
| Alarms.IndicationsNeverClear | openaisg/session.py:152-156 | an indication only raises, and every alarm it names is then active |
| Alarms.IndicationRaisesExactly | openaisg/session.py:152-156 | after an indication an alarm is active if and only if it was before or a code other than 0 from the fourth octet on has its name |
| Alarms.SnapshotSetsExactly | openaisg/session.py:140-141 | after a snapshot an alarm is active if and only if the snapshot names it |
| Alarms.NamesOfCodes | openaisg/retap.py:44-71 | the names of some codes, and how a code without a name is shown |
| Alarms.NamesDiffer | openaisg/retap.py:44-71 | no two codes share a name |
| Alarms.OrderOfEvents | openaisg/session.py:145-148 | what is new comes before what is gone, each in the order of letters |
| Worker.SerialWorker.Release | openaisg/session.py:742-755 | the link is given up unless something but OSError and AisgError escapes the disconnect |
| Worker.SerialWorker.FailLink | openaisg/session.py:730-740 | release, backoff state, doubled delay up to a minute |
| Worker.SerialWorker.OpenAndConnect | openaisg/session.py:512-562 | the whole opening sequence, over every way each of its calls can end |
| Worker.SerialWorker.ConnectedHousekeeping | openaisg/session.py:649-669 | alarm poll, duty-cycled release, keep-alive and idle release, as the mode and the clock say |
| Worker.SerialWorker.KeepalivePoll | openaisg/session.py:685-709 | without a link the keep-alive itself is an exception; otherwise its outcome may fail the link |
| Worker.SerialWorker.Drain | openaisg/session.py:711-728 | only a drain that runs to its end goes back to connected |
| Worker.SerialWorker.Step | openaisg/session.py:477-501 | one housekeeping step, a lease first |
| Worker.SerialWorker.Take | openaisg/session.py:366-370 | the command taken is the one the priority queue gives out, the rest stay in order |
| Worker.SerialWorker.Abandon | openaisg/session.py:403-406 | a pending future is settled with an error, a cancelled one is noted, any other refuses |
| Worker.SerialWorker.Execute | openaisg/session.py:408-445 | the future is settled as the command ended; an acknowledged timeout drains, a reset fails the link, any other exception escapes unsettled |
| Worker.SerialWorker.TryExecute | openaisg/session.py:378-401 | execute when connected, refuse in the fail-fast states or past the deadline, else ask for the link |
| Worker.SerialWorker.RunPass | openaisg/session.py:338-358 | one pass of the loop with its exception handler |
| Worker.SerialWorker.Teardown | openaisg/session.py:757-765 | the queue is refused in priority order and the link released |
| WorkerRuns.PassOwned | openaisg/session.py:338-358 | after every pass the link is held exactly when connected or draining and no state without a step branch remains; the thread dies if and only if, by what the pass met, something escaped with the link held and addressed and the handler's disconnect throws |
| WorkerRuns.OwnershipFromStart | openaisg/session.py:338-360 | the same at every loop boundary of every run |
| WorkerRuns.InOnePlace | openaisg/session.py:338-360 | the books put each command in exactly one of queue, head and finished, started and settled at most once |
| WorkerRuns.CommandsConserved | openaisg/session.py:338-445 | the books hold after every run, whatever exceptions commands raise |
| WorkerRuns.QuarantineBetween | openaisg/session.py:431-438 | on every run, between an acknowledged timeout of a command and the next command started there is a completed drain or a fresh connection (what a drain is worth: Quarantine.QuarantineExactly) |
| WorkerRuns.PollTimeoutNotDrained | openaisg/session.py:671-683 | an alarm poll that times out acknowledged leaves the worker connected and undrained exactly unless a duty cycle gives the link back or the keep-alive ends it |
| WorkerRuns.StartedAtOnce | openaisg/session.py:378-401 | a command submitted to an idle connected worker is started by the next pass |
| WorkerRuns.LeaseClosesPort | openaisg/session.py:477-485 | the first step under a lease closes the port, unless and only unless the disconnect throws |
| WorkerRuns.PassUnderLease | openaisg/session.py:378-401 | a pass under a lease opens and executes nothing and refuses the command it takes |
| WorkerRuns.PassEntersLease | openaisg/session.py:338-358 | a pass that comes to its step under a lease ends with the port closed, whatever escapes, unless the thread dies |
| WorkerRuns.LeaseKeepsPortClosed | openaisg/session.py:284-297 | from a closed port on, for as long as leases last: no open, no command started, and the thread lives |
| WorkerRuns.LeaseSafety | openaisg/session.py:477-485 | from the first step under a lease to the end of leases the port stays closed, nothing is opened or executed, and every command that leaves the queue is refused or was cancelled |
| WorkerRuns.StuckExactlyByEscape | openaisg/session.py:408-445 | a pass leaves a running future at the head if and only if it executes a command that raises something nobody catches |
| WorkerRuns.StuckForEver | openaisg/session.py:378-406 | from then on no command is ever started, refused or settled and the port stays closed |
| WorkerRuns.TeardownFinishesAllButHead | openaisg/session.py:757-765 | after the loop exactly the commands not held at the head are finished, so all are if and only if none is held |
| WorkerRuns.NextUpIsSoonest | openaisg/session.py:210-220 | no queued command comes before the one taken, by priority and then age |
| WorkerRuns.OpensExactly | openaisg/session.py:477-510 | a step attempts an open if and only if no lease is in force, the state is one of five without a link, and something asks for it; the backoff time plays no part |
| WorkerRuns.DutyCycleSkipsBackoff | openaisg/session.py:659-663 | a reset during a duty-cycled poll leaves the port free to be opened before the backoff is over |
| WorkerRuns.BusyPortSkipsBackoff | openaisg/session.py:517-524 | so does a port found busy, lost or without devices |
| WorkerRuns.LeaseSkipsBackoff | openaisg/session.py:479-486 | so does a lease taken and dropped |
| WorkerSteps.TakesSoonest | openaisg/session.py:210-220 | the command taken has the least priority number and is the oldest of these; the rest keep their order |
| WorkerSteps.RefusesSoonest | openaisg/session.py:757-764 | teardown refuses in the same order, and tells a cancelled command apart |
| WorkerSteps.CommandsTurn | openaisg/session.py:378-401 | connected, a command starts; in six named states or past its deadline it is refused; else it waits and asks for the link |
| WorkerSteps.CommandEnds | openaisg/session.py:408-444 | how each way a command can end leaves its future, the link and the clock of idleness |
| WorkerSteps.EndsAreFinal | openaisg/session.py:338-445 | over every run a command that has ended keeps the end it had |
| WorkerSteps.CancelledNeverRuns | openaisg/session.py:389-391 | a command cancelled before it is started is on no run started, refused or settled |
| WorkerSteps.StepOpens | openaisg/session.py:503-510 | a step attempts an open exactly when a command waits, monitoring is continuous or a duty cycle is due, with no lease and in one of five states |
| WorkerSteps.OpeningEnds | openaisg/session.py:512-562 | the state, delay and link after every way the opening sequence can end |
| WorkerSteps.FailedLinkWaits | openaisg/session.py:730-737 | a link given up is left alone for twice the last delay, at most a minute |
| WorkerSteps.DelaysInSeconds | openaisg/session.py:735-737 | the delays from the start are 2, 4, 8, 16, 32 seconds and then a minute each |
| WorkerSteps.BackoffStep | openaisg/session.py:492-495 | the backoff state is left exactly when its time is over |
| WorkerSteps.BackoffEnds | openaisg/session.py:338-358 | a run property: every command waiting or queued is refused by a pass, and two passes after that, the time being over, the worker attempts to open the port if something asks for it |
| WorkerSteps.SubmittedAfterUnlease | openaisg/session.py:362-364 | a command submitted right after a lease was dropped is not refused: its pass attempts to open the port |
| WorkerSteps.IdleRelease | openaisg/session.py:666-669 | without monitoring the link is given back exactly when neither a command nor a poll used it for long enough |
| WorkerSteps.DutyCycle | openaisg/session.py:650-660 | a duty-cycled worker polls exactly when its period is over, and gives the link back unless a command waits |
| WorkerSteps.Continuously | openaisg/session.py:652-665 | a continuously monitoring worker keeps the link, polls when due, and keeps it alive when that is due |
| WorkerSteps.PollFindsReset | openaisg/session.py:678-679 | a poll that finds the link reset gives it up; a keep-alive due in the same step is then an exception |
| WorkerSteps.DrainEnds | openaisg/session.py:711-728 | a drain ends connected, in backoff or in an exception |
| WorkerSteps.TeardownEnds | openaisg/session.py:757-765 | in the end nothing is queued and no link is held |
| Events.Subscriber.PutNowait | api/events.py:42-58 | a full queue loses its oldest event and counts it, another gains one |
| Events.EventBus.PublishNowait | api/events.py:42-58 | every subscriber is offered the event, numbered in sequence, and the ring holds the last ones published |
| Events.EventBus.ReplaySince | api/events.py:60-61 | exactly the events above the number among the last ones published |
| Events.EveryEventAccounted | api/events.py:42-66 | over any interleaving published = taken + lost + waiting, the waiting are the latest without a gap, the taken came in order, and nothing is missing while none was lost |
| Events.LostOnlyWhenFull | api/events.py:42-58 | a publication loses one event exactly when 256 are waiting, and nothing else loses any |
| Events.LosesExactlyWhenBehind | api/events.py:42-58 | over any interleaving a subscriber loses nothing if and only if it is never more than 256 events behind |
| Events.ReplayThenQueueHasNoGap | api/app.py:379-385 | a replay taken any time after subscribing repeats exactly what was published in between; but for that, replay and queue together are every event after the number asked from, in order and once, if it lies in the ring and nothing was lost; from number 0 nothing is replayed |

## Left out

- Opening the serial device, errno mapping, DTR, flock and USB behaviour: foreign calls.
- `_xfer`, `_read_frames` and `serial.read` timing: a read is any bytes at any time.
- The resync message of the event socket, sent when something was lost, and the reset of the count it makes.
- Thread interleaving inside one pass, `stop`, `snapshot` and the emitted state and progress events.
- A command's own code (`retap.py`, `_sweep_device_data`, `_set_tilt`, entry actions): any sequence of exchanges with any outcome.
- `assign_address`, `probe_address`, `scan_assigned`, `request`: each is one or two calls of members modelled here.
- RETAP field decoding, `api/jobs.py`, the HTTP API, the UI, the CLI, deployment: only easy members or plumbing.
- Control bytes beyond those the link uses, and the `ts` field of events.
- The deframer behind the exchange: the exchange is given whole frames; Deframer.dfy proves which frames those are.
- Link.AisgLink.Exchange: runs over a finite script of passes, because a device that reports for ever can keep an exchange going for ever; ExchangeTerminates bounds it by the reports.
- JointRuns.CommandLockstep: says nothing after an unacknowledged timeout, where lockstep can be false of the code (RefusedYetAcknowledged); DoubtOnlyAfterUnackedTimeout says exactly how V(S) stands at that moment.
- Secondary.FakeSecondary.Receive: leaves out the FRMR or DM a test can have the double answer an I-frame with; TakeUnnumbered is what the primary does with them.
- JointRuns.InboundDelivery: leaves out runs that write a request again seven past its N(R) modulo eight, because there the code loses reports (ReportLost).
- Hazards.EarlyReturnExactly: that an early return is possible whenever an answer is owed is said of timeouts and polling intervals that are not negative; with a negative interval the sleep of the first poll raises.
- Worker.SerialWorker.Execute: the values cached from a command's result and the reports parked during it do not appear; AlarmTracker covers what becomes of the latter.
- Worker.SerialWorker.KeepalivePoll: takes the outcome of the read as given; Watching.KeepalivePoll is the read itself.
- Worker.SerialWorker.Drain: takes the outcome of the drain as given; Watching.Drain is its loop.
- Worker.SerialWorker.OpenAndConnect: discovery and the entry actions are calls with given outcomes; which device is chosen and what is read from it are not modelled.
- Scan.Scanner.Scan: a device is its unique ID; type and vendor code ride along unmodelled.
