/** The primary's exchange and a strict secondary, joined by two first-in first-out lines that may lose
    or repeat any frame at any time. Messages in flight carry, beside the frame the stations see, the
    unbounded counts behind its modulo-eight numbers; no station looks at those. */
module Lockstep {
  import opened Bits
  import opened Framing
  import opened Control
  import opened Link
  import opened Secondary
  import opened Wrappers

  /** Command frames in flight: `j` counts commands, `ns` is the N(S) written, `nr` the count behind V(R) when the
      frame was built, `at` the one when it was written. */
  datatype ToSec = Snrm | Cmd(j: nat, ns: seqno, nr: nat, at: nat, message: bytes) | Ack(nr: nat, poll: bool)

  /** Reply frames in flight: `m` counts the secondary's I-frames, `nr` the commands it had accepted. */
  datatype ToPri = Ua | Info(m: nat, nr: nat, payload: bytes) | Sup(kind: Kind, nr: nat)

  function SecSees(addr: byte, e: ToSec): Frame
  {
    match e
    case Snrm => Frame(addr, SNRM + PF, [])
    case Cmd(_, ns, nr, _, message) => Frame(addr, IControl(ns, nr % 8), message)
    case Ack(nr, poll) => Frame(addr, SControl(Kind.Rr, nr % 8, poll), [])
  }

  function PriSees(addr: byte, e: ToPri): Frame
  {
    match e
    case Ua => Frame(addr, UA + PF, [])
    case Info(m, nr, payload) => Frame(addr, IControl(m % 8, nr % 8), payload)
    case Sup(kind, nr) => Frame(addr, SControl(kind, nr % 8, true), [])
  }

  /** Between exchanges, in one, or past a DM or FRMR, after which the link has to be set up again. */
  datatype Mode = Idle(vs: seqno, vr: seqno) | Busy(call: Call, x: Xch) | Lost

  /** `issued` are the requests of all exchanges begun, `accepted` those the secondary took in, `responses` what it
      decided to answer each of these, `stream` the payloads of the I-frames it has begun sending, `taken` those the
      primary took. `pos` is the count behind V(R), `base` what it was when the current exchange began, `stale`
      whether a request has been written again while the two stood seven apart modulo eight, and `doubt` whether
      the count of commands is in doubt: an exchange timed out unacknowledged, or began unguarded. */
  datatype System = System(
    addr: byte, mode: Mode, sec: Station, p2s: seq<ToSec>, s2p: seq<ToPri>,
    issued: seq<bytes>, accepted: seq<bytes>, responses: seq<bytes>, stream: seq<bytes>, taken: seq<bytes>,
    pos: nat, base: nat, stale: bool, doubt: bool)

  predicate IsReport(payload: bytes)
  {
    payload != [] && payload[0] in INDICATION_CODES
  }

  // ----- the steps -----

  const NO_STATS := Stats(0, 0, 0, 0, 0, 0, 0)

  /** Commands are written as the exchange says; the counts are those of the moment. */
  function Tag(s: System, sent: Sent): ToSec
  {
    match sent
    case SentI(_, ns, _, message) => Cmd(if s.issued == [] then 0 else |s.issued| - 1, ns, s.base, s.pos, message)
    case SentRr(_, _, poll) => Ack(s.pos, poll)
  }

  function Tags(s: System, writes: seq<Sent>): (r: seq<ToSec>)
    ensures |r| == |writes|
  {
    if writes == [] then [] else [Tag(s, writes[0])] + Tags(s, writes[1..])
  }

  function NewCall(addr: byte, message: bytes, timeout: int, interval: int): Call
  {
    Call(addr, message, timeout, interval, RetapRouter(message))
  }

  /** An exchange begins: the request is written. */
  ghost function BeginExchange(s: System, call: Call, now: int): System
    requires s.mode.Idle?
  {
    var t := s.(issued := s.issued + [call.message], base := s.pos, doubt := s.doubt || Unguarded(s, call));
    var x := Begin(call, s.mode.vs, s.mode.vr, true, NO_STATS, now);
    t.(mode := Busy(call, x), p2s := s.p2s + Tags(t, x.writes))
  }

  /** The exchange's reactions write at most one frame; a request among them has gone out before. */
  predicate Resends(writes: seq<Sent>)
  {
    writes != [] && writes[0].SentI?
  }

  /** What the primary's state becomes after the exchange has reacted, with what it wrote on the line. */
  function Reacted(s: System, call: Call, x: Xch, took: seq<bytes>): System
  {
    var t := s.(taken := s.taken + took, pos := s.pos + |took|);
    var mode := match x.outcome
      case Running => Busy(call, x)
      case Returned(_) => Idle(x.vs, x.vr)
      case TimedOut(_, _) => Idle(x.vs, x.vr)
      case LinkReset(_, _) => Lost;
    t.(mode := mode, p2s := s.p2s + Tags(t, x.writes),
       stale := s.stale || (Resends(x.writes) && (t.pos - t.base) % 8 == 7),
       doubt := s.doubt || Unanswered(x.outcome))
  }

  /** The exchange ended without an acknowledgement, so whether the request got through is not known. */
  predicate Unanswered(outcome: Outcome)
  {
    outcome.TimedOut? && !outcome.acked
  }

  /** The exchange's reaction to the frame at the head of the line, and to the end of a read. */
  function Heard(s: System, at: int): Xch
    requires s.mode.Busy? && s.s2p != []
  {
    OnFrame(s.mode.call, s.mode.x.(writes := [], taken := []), Timed(PriSees(s.addr, s.s2p[0]), at))
  }

  function Ticked(s: System, now: int): Xch
    requires s.mode.Busy?
  {
    AfterBatch(s.mode.call, s.mode.x.(writes := [], taken := []), now)
  }

  function PrimaryHears(s: System, at: int): System
    requires s.mode.Busy? && s.s2p != []
  {
    var x := Heard(s, at);
    Reacted(s.(s2p := s.s2p[1..]), s.mode.call, x, x.taken)
  }

  function PrimaryTicks(s: System, now: int): System
    requires s.mode.Busy?
  {
    var x := Ticked(s, now);
    Reacted(s, s.mode.call, x, x.taken)
  }

  /** Keep-alive reads take an I-frame only in sequence; the quarantine drain takes any, and both
      acknowledge what they took, the drain inviting more. */
  function IdleHears(s: System, drain: bool): System
    requires s.mode.Idle? && s.s2p != []
  {
    var f := PriSees(s.addr, s.s2p[0]);
    var t := s.(s2p := s.s2p[1..]);
    if KindOf(f.ctrl) != I || (!drain && NsOf(f.ctrl) != s.mode.vr) then t
    else
      var vr := Next(NsOf(f.ctrl));
      var u := if vr == s.mode.vr then t
               else t.(taken := s.taken + [f.payload], pos := s.pos + (vr - s.mode.vr) % 8);
      u.(mode := s.mode.(vr := vr), p2s := s.p2s + [Tag(u, SentRr(s.addr, vr, drain))])
  }

  /** The secondary takes the frame at the head of its line. */
  function SecondaryHears(s: System, c: Choice): System
    requires s.p2s != []
  {
    var f := SecSees(s.addr, s.p2s[0]);
    var (sec, replies) := Hear(s.sec, f, c);
    var kind := KindOf(f.ctrl);
    var accepts := kind == I && sec.vr != s.sec.vr;
    var sends := kind != U && sec.vs != s.sec.vs;
    var stream := if sends && replies != [] then s.stream + [replies[0].payload] else s.stream;
    var accepted := if accepts then s.accepted + [f.payload] else s.accepted;
    var responses := if accepts then s.responses + [c.response] else s.responses;
    s.(sec := sec, p2s := s.p2s[1..], stream := stream, accepted := accepted, responses := responses,
       s2p := s.s2p + ReplyTags(replies, |stream|, |accepted|))
  }

  function ReplyTags(replies: seq<Frame>, sent: nat, accepted: nat): seq<ToPri>
  {
    if replies == [] then []
    else
      var f := replies[0];
      var tag := match KindOf(f.ctrl)
        case I => Info(if sent == 0 then 0 else sent - 1, accepted, f.payload)
        case U => Ua
        case kind => Sup(kind, accepted);
      [tag] + ReplyTags(replies[1..], sent, accepted)
  }

  datatype Step =
    | Start(call: Call, now: int)
    | Hears(at: int)
    | Ticks(now: int)
    | Polls(poll: bool)
    | IdleTakes(drain: bool)
    | Answers(choice: Choice)
    | LoseCommand(i: nat) | RepeatCommand(i: nat)
    | LoseReply(i: nat) | RepeatReply(i: nat)

  /** How many of its I-frames the secondary has let go of. */
  function Released(s: System): int
  {
    |s.stream| - (if s.sec.out.Some? then 1 else 0)
  }

  /** The I-frame whose N(S) is V(R) can still arrive: it has not been let go of, or it is on the line. */
  ghost predicate CanDeliver(s: System)
  {
    Released(s) <= s.pos || exists i :: 0 <= i < |s.s2p| && s.s2p[i].Info? && s.s2p[i].m == s.pos
  }

  /** The secondary still owes a payload this call would take for its own answer: the response it is working
      on, or an I-frame from V(R) on. */
  ghost predicate OwesAnswer(s: System, call: Call)
  {
    CanDeliver(s) && MayAnswer(s, call.router)
  }

  ghost predicate MayAnswer(s: System, router: Router)
  {
    || (s.sec.pending.Some? && router(s.sec.pending.value) == Accept)
    || exists i :: s.pos <= i < |s.stream| && router(s.stream[i]) == Accept
  }

  /** No report is taken for an answer. */
  ghost predicate RefusesReports(router: Router)
  {
    forall payload | IsReport(payload) :: router(payload) != Accept
  }

  /** An exchange that can be answered with something the secondary did not mean for it. */
  ghost predicate Unguarded(s: System, call: Call)
  {
    OwesAnswer(s, call) || !RefusesReports(call.router)
  }

  ghost predicate Enabled(s: System, step: Step)
  {
    match step
    case Start(call, _) => s.mode.Idle? && call.addr == s.addr
    case Hears(at) => s.mode.Busy? && s.s2p != []
    case Ticks(now) => s.mode.Busy?
    case Polls(_) => s.mode.Idle?
    case IdleTakes(_) => s.mode.Idle? && s.s2p != []
    case Answers(c) =>
      && s.p2s != []
      && c.kind in {Kind.Rr, Rnr, Rej, Srej} && (c.report.Some? ==> IsReport(c.report.value))
    case LoseCommand(i) => i < |s.p2s|
    case RepeatCommand(i) => i < |s.p2s|
    case LoseReply(i) => i < |s.s2p|
    case RepeatReply(i) => i < |s.s2p|
  }

  function Without<T>(line: seq<T>, i: nat): seq<T>
    requires i < |line|
  {
    line[..i] + line[i + 1..]
  }

  function Doubled<T>(line: seq<T>, i: nat): seq<T>
    requires i < |line|
  {
    line[..i] + [line[i]] + line[i..]
  }

  ghost function Apply(s: System, step: Step): System
    requires Enabled(s, step)
  {
    match step
    case Start(call, now) => BeginExchange(s, call, now)
    case Hears(at) => PrimaryHears(s, at)
    case Ticks(now) => PrimaryTicks(s, now)
    case Polls(poll) => s.(p2s := s.p2s + [Tag(s, SentRr(s.addr, s.mode.vr, poll))])
    case IdleTakes(drain) => IdleHears(s, drain)
    case Answers(c) => SecondaryHears(s, c)
    case LoseCommand(i) => s.(p2s := Without(s.p2s, i))
    case RepeatCommand(i) => s.(p2s := Doubled(s.p2s, i))
    case LoseReply(i) => s.(s2p := Without(s.s2p, i))
    case RepeatReply(i) => s.(s2p := Doubled(s.s2p, i))
  }

  /** Right after `connect`: both stations reset, and nothing on the lines but stray copies of SNRM and UA. */
  ghost predicate Connected(s: System)
  {
    && s.addr != BROADCAST
    && s.mode == Idle(0, 0) && s.sec == Station(s.addr, 0, 0, true, None, None)
    && (forall i | 0 <= i < |s.p2s| :: s.p2s[i] == Snrm) && (forall i | 0 <= i < |s.s2p| :: s.s2p[i] == Ua)
    && s.issued == s.accepted == s.responses == s.stream == s.taken == [] && s.pos == s.base == 0
    && !s.stale && !s.doubt
  }
}
