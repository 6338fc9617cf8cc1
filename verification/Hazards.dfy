/** The ways a joint run can go wrong, each with the exact condition: a request written again with an N(R) that has
    come round, an exchange begun while an answer like its own is still owed, and one begun with V(S) behind. */
module Hazards {
  import opened Bits
  import opened Control
  import opened Link
  import opened Numbers
  import opened Secondary
  import opened Wrappers
  import opened Lockstep
  import opened Agreement
  import opened JointRuns
  import opened Schedules

  // ----- an N(R) that has come round -----

  /** A frame written when V(R) stood at `at` makes the secondary let go of an I-frame not yet taken then exactly
      when that I-frame is the one at V(R) and the frame's N(R) is seven short, modulo eight. */
  lemma MisleadsExactly(s: System, nr: nat, at: nat)
    requires Counts(s) && s.sec.out.Some? && nr <= at && Released(s) <= at <= s.pos
    ensures Acknowledged(s.sec, nr % 8).out.None? && |s.stream| > at <==> at == Released(s) && (at - nr) % 8 == 7
  {
    hide Counts;
    SevenShort(|s.stream|, nr, at);
    CountsStation(s);
  }

  lemma SevenShort(q: nat, nr: nat, at: nat)
    requires nr <= at && q - 1 <= at
    ensures nr % 8 == q % 8 && q > at <==> at == q - 1 && (at - nr) % 8 == 7
  {}

  lemma CountsStation(s: System)
    requires Counts(s)
    ensures StationCounts(s)
  {}

  /** The request is written again with V(R) seven past its N(R), modulo eight, while the secondary is offering
      the I-frame at V(R). */
  ghost predicate SevenTaken(s: System, now: int)
  {
    && Inv(s) && s.mode.Busy? && s.p2s == [] && s.sec.out.Some?
    && (s.pos - s.base) % 8 == 7 && |s.stream| == s.pos + 1
    && Resends(Ticked(s, now).writes)
  }

  lemma SendsWhenFree(s: Station, c: Choice)
    requires s.out.None?
    ensures Reply(s, c).0.out.Some? <==> Reply(s, c).0.vs != s.vs
  {}

  lemma ResentRequest(s: System, now: int)
    requires s.mode.Busy? && s.p2s == [] && Resends(Ticked(s, now).writes)
    ensures var call := s.mode.call; var t := PrimaryTicks(s, now);
      && t.p2s == [Cmd(if s.issued == [] then 0 else |s.issued| - 1, s.mode.x.sentNs, s.base, s.pos, call.message)]
      && t.sec == s.sec && t.pos == s.pos && t.stream == s.stream && t.taken == s.taken && t.addr == s.addr
      && t.s2p == s.s2p
      && t.accepted == s.accepted
  {
    hide Tags, Reacted;
    var call := s.mode.call;
    var x := Ticked(s, now);
    assert x.writes == [SentI(call.addr, x.sentNs, x.sentNr, call.message)];
    ReactedOnce(s, call, x, [], x.writes[0]);
    assert s.taken + [] == s.taken;
  }

  lemma AnsweredAdds(s: System, c: Choice)
    ensures var t := Answered(s, c);
      && s.s2p <= t.s2p && t.pos == s.pos && t.taken == s.taken && t.mode == s.mode && t.p2s == s.p2s
      && Released(s) <= Released(t)
      && forall i | |s.s2p| <= i < |t.s2p| && t.s2p[i].Info? && t.stream != [] :: t.s2p[i].m >= Released(t)
  {}

  /** What the secondary says when spoken to is no older than the I-frame it has not let go of. */
  lemma AnswersAdd(s: System, c: Choice)
    requires Inv(s) && Enabled(s, Answers(c))
    ensures var t := SecondaryHears(s, c);
      && s.s2p <= t.s2p && t.pos == s.pos && t.taken == s.taken && t.mode == s.mode && Released(s) <= Released(t)
      && forall i | |s.s2p| <= i < |t.s2p| && t.s2p[i].Info? && t.stream != [] :: t.s2p[i].m >= Released(t)
  {
    hide Commands, Replies, Owed, Counts, PrimaryCounts, SecondaryHears, Answered, CanDeliver, FreedBy, Accepted,
         Released;
    var e := s.p2s[0];
    HeadTaken(s);
    var u := s.(p2s := s.p2s[1..]);
    SameButLine(s, u.p2s);
    StationHolds(s);
    if e.Snrm? {
      HeardSnrm(s, c);
    } else {
      FreedCounts(u, e);
      FreedSame(u, Nr(e));
      match e
      case Ack(nr, poll) =>
        HeardAck(s, c);
        AnsweredAdds(FreedBy(u, nr), c);
      case Cmd(_, _, nr, _, message) =>
        HeardCommand(s, c);
        AcceptedSame(FreedBy(u, nr), message, c.response);
        AnsweredAdds(Accepted(FreedBy(u, nr), message, c.response), c);
    }
  }

  lemma StationHolds(s: System)
    requires Inv(s)
    ensures StationCounts(s)
  {}

  lemma SameButLine(s: System, line: seq<ToSec>)
    ensures Released(s.(p2s := line)) == Released(s)
    ensures Released(s.(s2p := s.s2p + [Ua])) == Released(s)
    ensures Released(s.(p2s := line, s2p := s.s2p + [Ua])) == Released(s)
  {}

  lemma FreedSame(s: System, nr: nat)
    ensures var t := FreedBy(s, nr);
      && t.s2p == s.s2p && t.pos == s.pos && t.taken == s.taken && t.mode == s.mode && t.stream == s.stream
      && t.accepted == s.accepted
    ensures var t := FreedBy(s, nr); forall e :: Released(t.(s2p := t.s2p + [e])) == Released(t)
  {}

  lemma AcceptedSame(s: System, message: bytes, response: bytes)
    ensures var t := Accepted(s, message, response);
      && t.s2p == s.s2p && t.pos == s.pos && t.taken == s.taken && t.mode == s.mode && t.stream == s.stream
      && Released(t) == Released(s)
  {}

  /** Then the secondary lets go of an I-frame the primary has not taken; and if no copy of it is under way,
      it cannot be delivered any more. */
  lemma SevenIsTooMany(s: System, now: int, c: Choice)
    requires SevenTaken(s, now)
    ensures var t := SecondaryHears(PrimaryTicks(s, now), c);
      Released(t) == s.pos + 1 == t.pos + 1 && t.taken == s.taken
    ensures c.kind in {Kind.Rr, Rnr, Rej, Srej} && (c.report.Some? ==> IsReport(c.report.value))
            && (forall i | 0 <= i < |s.s2p| :: s.s2p[i].Info? ==> s.s2p[i].m != s.pos)
            ==> !CanDeliver(SecondaryHears(PrimaryTicks(s, now), c))
  {
    hide Commands, Replies, Owed, PrimaryCounts, KindOf, NsOf, NrOf, HasPf, IControl, SControl, ReplyTags, Reply,
         WithoutPf, PrimaryTicks, Ticked;
    ResentRequest(s, now);
    var t := PrimaryTicks(s, now);
    SameStation(s, t);
    SevenFrees(t, c);
    if c.kind in {Kind.Rr, Rnr, Rej, Srej} && (c.report.Some? ==> IsReport(c.report.value)) {
      SevenNotUnderWay(s, now, c);
    }
  }

  lemma SevenFrees(t: System, c: Choice)
    requires StationCounts(t) && t.sec.out.Some? && |t.stream| == t.pos + 1 && t.p2s != [] && t.p2s[0].Cmd?
    requires t.p2s[0].nr <= t.pos && (t.pos - t.p2s[0].nr) % 8 == 7
    ensures var u := SecondaryHears(t, c); Released(u) == t.pos + 1 && u.pos == t.pos && u.taken == t.taken
  {
    hide KindOf, NsOf, NrOf, HasPf, IControl, SControl, ReplyTags, Reply, WithoutPf, Next;
    var e := t.p2s[0];
    SevenShort(|t.stream|, e.nr, t.pos);
    IControlRoundTrip(e.ns, e.nr % 8);
    var freed := t.sec.(out := None);
    assert Acknowledged(t.sec, e.nr % 8) == freed;
    SendsWhenFree(freed.(vr := Next(t.sec.vr), pending := Some(c.response)), c);
  }

  lemma SevenNotUnderWay(s: System, now: int, c: Choice)
    requires SevenTaken(s, now) && c.kind in {Kind.Rr, Rnr, Rej, Srej} && (c.report.Some? ==> IsReport(c.report.value))
    ensures var t := SecondaryHears(PrimaryTicks(s, now), c);
      Released(t) == s.pos + 1 && (forall i | 0 <= i < |s.s2p| :: s.s2p[i].Info? ==> s.s2p[i].m != s.pos)
      ==> !CanDeliver(t)
  {
    hide Commands, Replies, Owed, PrimaryCounts, PrimaryTicks, SecondaryHears, Ticked;
    ResentRequest(s, now);
    KeepsUnderTicks(s, now);
    var u := PrimaryTicks(s, now);
    ResentBusy(s, now);
    AnswersAdd(u, c);
    NothingFromBefore(u, SecondaryHears(u, c));
  }

  lemma ResentBusy(s: System, now: int)
    requires Inv(s) && s.mode.Busy? && Resends(Ticked(s, now).writes)
    ensures PrimaryTicks(s, now).mode.Busy?
  {
    hide Tags, Commands, Replies, Owed, Counts;
  }

  /** If no copy of the I-frame at V(R) was on the line and none is added, there is none. */
  lemma NothingFromBefore(s: System, t: System)
    requires s.s2p <= t.s2p && t.pos == s.pos && t.stream != []
    requires forall i | |s.s2p| <= i < |t.s2p| && t.s2p[i].Info? && t.stream != [] :: t.s2p[i].m >= Released(t)
    ensures Released(t) == s.pos + 1 && (forall i | 0 <= i < |s.s2p| :: s.s2p[i].Info? ==> s.s2p[i].m != s.pos)
            ==> !CanDeliver(t)
  {
    forall i | 0 <= i < |s.s2p| ensures t.s2p[i] == s.s2p[i] {}
  }

  const REPORT: bytes := [0x07, 0, 0]
  const REQUEST: bytes := [0x33, 0, 0]
  /** Polled, the secondary reports. */
  const REPORTING := Choice([], true, Some(REPORT), Kind.Rr)

  /** An exchange whose request was lost and is asked for again too early to be resent. */
  ghost predicate Asking(s: System)
  {
    && s.addr == 1 && s.mode.Busy?
    && s.mode.call == NewCall(1, REQUEST, 3000, 50) && s.mode.x.outcome == Running && s.mode.x.deadline >= 3000
    && s.mode.x.retxLeft == RETX_LIMIT && s.mode.x.retxAt == RETX_AFTER && !s.mode.x.acked && s.mode.x.sentNs == 0
    && s.sec.pending.None? && |s.issued| == 1 && s.accepted == [] && s.base == 0
  }

  /** In it, `k` reports have been taken and the RR that invites the next is on its way. */
  ghost predicate Reported(s: System, k: nat)
  {
    && Asking(s) && (k > 0 ==> s.mode.x.missing)
    && s.p2s == [Ack(k, true)] && s.s2p == [] && |s.stream| == s.pos == k
  }

  /** The secondary hears the RR and reports. */
  lemma ReportGoesOut(s: System, k: nat)
    requires Inv(s) && Reported(s, k)
    ensures Enabled(s, Answers(REPORTING))
    ensures var t := SecondaryHears(s, REPORTING);
      && Inv(t) && Asking(t) && t.mode == s.mode && t.p2s == [] && t.s2p == [Info(k, 0, REPORT)]
      && t.sec.out == Some(REPORT) && t.pos == k && t.stream == s.stream + [REPORT]
  {
    hide Commands, Replies, Owed, SecondaryHears;
    assert CommandOk(s, s.p2s[0]) by { HeadTaken(s); }
    HeardAck(s, REPORTING);
    KeepsUnderAnswers(s, REPORTING);
  }

  /** The primary takes the report and invites the next. */
  lemma ReportIsTaken(s: System, k: nat, at: int)
    requires Inv(s) && Asking(s) && at >= 0
    requires s.p2s == [] && s.s2p == [Info(k, 0, REPORT)] && s.pos == k && |s.stream| == k + 1
    ensures Enabled(s, Hears(at)) && Reported(PrimaryHears(s, at), k + 1)
  {
    hide Inv, Heeded, OnInformation, OnFrame, NrOf, KindOf, NsOf, IControl, Tags, Heard, Reacted, RetapRouter, Next;
    var call, ctrl := s.mode.call, PriSees(s.addr, s.s2p[0]).ctrl;
    ReportIndicates();
    CourseHolds(s);
    IControlRoundTrip(k % 8, 0);
    assert Heard(s, at) == OnInformation(call, Heeded(s, ctrl), k % 8, REPORT, at) by { InformationHeard(s, at); }
    var x := Heard(s, at);
    HeededNumbers(s, ctrl);
    HeededRest(s, ctrl);
    OtherReaction(call, Heeded(s, ctrl), REPORT, at);
    ReactedOnce(s.(s2p := s.s2p[1..]), call, x, [REPORT], x.writes[0]);
  }

  lemma ReportIndicates()
    ensures RetapRouter(REQUEST)(REPORT) == Indication
  {}

  /** The report's N(R) asks for the request, which is not there to be acknowledged. */
  lemma HeededRest(s: System, ctrl: byte)
    requires s.mode.Busy? && NrOf(ctrl) == 0 && s.mode.x.sentNs == 0 && !s.mode.x.acked
    ensures var y := Heeded(s, ctrl);
      && y.writes == [] && y.missing && !y.acked && y.retxLeft == s.mode.x.retxLeft && y.retxAt == s.mode.x.retxAt
      && y.sentNs == 0 && y.outcome == s.mode.x.outcome && y.deadline == s.mode.x.deadline
  {
    hide NrOf;
  }

  lemma InformationHeard(s: System, at: int)
    requires s.mode.Busy? && s.s2p != [] && s.s2p[0].Info? && s.mode.call.addr == s.addr
    ensures
      var Info(m, _, payload) := s.s2p[0];
      Heard(s, at) == OnInformation(s.mode.call, Heeded(s, PriSees(s.addr, s.s2p[0]).ctrl), m % 8, payload, at)
  {
    hide KindOf, NrOf, NsOf, ApplyAck, NoteMissing, OnInformation, IControl;
    IControlRoundTrip(s.s2p[0].m % 8, s.s2p[0].nr % 8);
  }

  /** One report after the other: it is heard, the exchange polls and that RR is lost, and the one that
      acknowledged it invites the next. */
  lemma {:induction false} ReportsPileUp(s: System, steps: seq<Step>, t: System, k: nat)
    returns (more: seq<Step>, u: System)
    requires Inv(s) && Schedule(s, Beat(None, 0), steps, t, Beat(None, 100 + 50 * k), 50)
    requires Inv(t) && Reported(t, k) && k <= 7
    ensures Schedule(s, Beat(None, 0), more, u, Beat(None, 450), 50) && Inv(u) && Reported(u, 7)
    decreases 7 - k
  {
    hide Inv, Enabled, Schedule, SecondaryHears, PrimaryHears, SameCourse;
    if k == 7 {
      more, u := steps, t;
    } else {
      var now := 100 + 50 * k;
      ReportGoesOut(t, k);
      DeviceAnswers(s, Beat(None, 0), steps, t, Beat(None, now), 50, REPORTING);
      var v := SecondaryHears(t, REPORTING);
      ReportIsTaken(v, k, now);
      FrameHandled(s, Beat(None, 0), steps + [Answers(REPORTING)], v, Beat(None, now), 50, now);
      var w, d := PrimaryHears(v, now), Beat(None, 0);
      more, w, d := TicksUnheard(
        s, Beat(None, 0), steps + [Answers(REPORTING)] + [Hears(now)], w, Beat(Some(0), now), 50, now);
      StillReported(PrimaryHears(v, now), w, k + 1);
      ScheduleRuns(s, Beat(None, 0), more, w, d, 50);
      KeepsRun(s, more, w);
      more, u := ReportsPileUp(s, more, w, k + 1);
    }
  }

  lemma StillReported(s: System, t: System, k: nat)
    requires Reported(s, k) && SameCall(s, t) && t.p2s == s.p2s
    requires t.mode.x.retxLeft == s.mode.x.retxLeft && t.mode.x.retxAt == s.mode.x.retxAt
    requires t.mode.x.missing == s.mode.x.missing
    ensures Reported(t, k)
  {}

  /** Such a state is reached from a fresh connection, on a schedule the loop can have: the request is lost, and so
      is every poll; the device reports eight times before a second has passed, and the last report is lost. */
  lemma SevenHappen() returns (s: System, call: Call, steps: seq<Step>, t: System)
    ensures Connected(s) && Enabled(s, Start(call, 0))
    ensures Schedule(BeginExchange(s, call, 0), Beat(None, 0), steps, t, Beat(None, 450), 50)
    ensures SevenTaken(t, 1001) && t.s2p == []
  {
    hide Inv, SecondaryHears, Schedule;
    var b;
    s, call, b, steps, t := FirstPoll();
    steps, t := ReportsPileUp(b, steps, t, 0);
    ReportGoesOut(t, 7);
    DeviceAnswers(b, Beat(None, 0), steps, t, Beat(None, 450), 50, REPORTING);
    steps, t := steps + [Answers(REPORTING)], SecondaryHears(t, REPORTING);
    LosesReply(b, Beat(None, 0), steps, t, Beat(None, 450), 50, 0);
    KeepsUnderLoss(t, LoseReply(0));
    steps, t := steps + [LoseReply(0)], t.(s2p := Without(t.s2p, 0));
  }

  /** And so a report is lost: sent, not taken, and not to be delivered any more. */
  lemma ReportLost() returns (s: System, call: Call, steps: seq<Step>, t: System, c: Beat)
    ensures Connected(s) && Enabled(s, Start(call, 0)) && Runs(s, [Start(call, 0)] + steps, t)
    ensures Schedule(BeginExchange(s, call, 0), Beat(None, 0), steps, t, c, 50)
    ensures t.mode.Busy? && t.pos < |t.stream| && !CanDeliver(t)
  {
    hide Inv, Runs, Schedule, SecondaryHears, PrimaryTicks, CanDeliver, Ticked, BeginExchange, OwesAnswer;
    var u;
    s, call, steps, u := SevenHappen();
    var b := BeginExchange(s, call, 0);
    TicksIs(u, 1001);
    ScheduleOn(b, Beat(None, 0), steps, u, Beat(None, 450), 50, Ticks(1001));
    c := NextBeat(u, Beat(None, 450), Ticks(1001), 50);
    ResentBusy(u, 1001);
    var v := PrimaryTicks(u, 1001);
    ResentRequest(u, 1001);
    DeviceAnswers(b, Beat(None, 0), steps + [Ticks(1001)], v, c, 50, REPORTING);
    SevenIsTooMany(u, 1001, REPORTING);
    steps, t := steps + [Ticks(1001)] + [Answers(REPORTING)], SecondaryHears(v, REPORTING);
    AnswersLeaveMode(v, REPORTING);
    ReleasedSent(t);
    BeginsRun(s, call, 0, steps, t, c, 50);
  }

  lemma ReleasedSent(t: System)
    ensures Released(t) <= |t.stream|
  {}

  /** A schedule is a run from where its exchange began. */
  lemma BeginsRun(s: System, call: Call, now: int, steps: seq<Step>, t: System, c: Beat, pause: int)
    requires Enabled(s, Start(call, now))
    requires Schedule(BeginExchange(s, call, now), Beat(None, now), steps, t, c, pause)
    ensures Runs(s, [Start(call, now)] + steps, t)
  {
    hide OwesAnswer, BeginExchange;
    ScheduleRuns(BeginExchange(s, call, now), Beat(None, now), steps, t, c, pause);
    assert ([Start(call, now)] + steps)[1..] == steps;
  }

  lemma FreshStart(message: bytes) returns (s: System, call: Call, b: System)
    ensures Connected(s) && Enabled(s, Start(call, 0)) && b == BeginExchange(s, call, 0) && Inv(b)
    ensures s
         == System(1, Idle(0, 0), Station(1, 0, 0, true, None, None), [], [], [], [], [], [], [], 0, 0, false, false)
    ensures call == NewCall(1, message, 3000, 50)
    ensures b == s.(issued := [message], p2s := [Cmd(0, 0, 0, 0, message)],
                        mode := Busy(call, Begin(call, 0, 0, true, NO_STATS, 0)))
  {
    hide Inv, Tags;
    s := System(1, Idle(0, 0), Station(1, 0, 0, true, None, None), [], [], [], [], [], [], [], 0, 0, false, false);
    call := NewCall(1, message, 3000, 50);
    b := BeginExchange(s, call, 0);
    InvInit(s);
    assert s.issued + [message] == [message] && s.p2s + [Cmd(0, 0, 0, 0, message)] == [Cmd(0, 0, 0, 0, message)];
    OneTag(s.(issued := [message]), SentI(1, 0, 0, message));
    KeepsUnderStart(s, call, 0);
  }

  lemma FirstPoll() returns (s: System, call: Call, b: System, steps: seq<Step>, t: System)
    ensures Connected(s) && Enabled(s, Start(call, 0)) && b == BeginExchange(s, call, 0) && Inv(b)
    ensures Schedule(b, Beat(None, 0), steps, t, Beat(None, 100), 50) && Inv(t) && Reported(t, 0)
  {
    hide Inv, Schedule, PrimaryTicks, Ticked, BeginExchange, OwesAnswer;
    s, call, b := FreshStart(REQUEST);
    ScheduleEnds(b, Beat(None, 0), 50);
    LosesCommand(b, Beat(None, 0), [], b, Beat(None, 0), 50, 0);
    var u := b.(p2s := Without(b.p2s, 0));
    TickGoesOn(u, 50);
    TicksIs(u, 50);
    steps, t := [] + [LoseCommand(0)] + [Ticks(50)], PrimaryTicks(u, 50);
    ScheduleOn(b, Beat(None, 0), [] + [LoseCommand(0)], u, Beat(None, 0), 50, Ticks(50));
    ScheduleRuns(b, Beat(None, 0), steps, t, Beat(None, 100), 50);
    KeepsRun(b, steps, t);
  }

  // ----- what is lost stays lost -----

  lemma StalledHears(s: System, at: int)
    requires Inv(s) && Enabled(s, Hears(at)) && !CanDeliver(s)
    ensures var t := PrimaryHears(s, at); t.taken == s.taken && t.pos == s.pos && !CanDeliver(t)
  {
    hide Commands, Owed, ReplyBefore, PrimaryCounts, Heard, Tags;
    StalledHeard(s, at);
    var t := PrimaryHears(s, at);
    assert s.taken + [] == s.taken;
    forall i | 0 <= i < |t.s2p| ensures t.s2p[i] == s.s2p[i + 1] {}
  }

  lemma StalledHeard(s: System, at: int)
    requires Inv(s) && Enabled(s, Hears(at)) && !CanDeliver(s)
    ensures Heard(s, at).taken == []
  {
    hide Inv, Heard, Heeded, PriSees, OnInformation, OnSupervisory, KindOf, NsOf, NrOf, WithoutPf;
    CourseHolds(s);
    HeadNear(s);
    match s.s2p[0]
    case Ua => HearsUaNumbers(s, at);
    case Sup(kind, nr) =>
      HeardSupervisory(s, at);
      HeededNumbers(s, PriSees(s.addr, s.s2p[0]).ctrl);
      SupervisoryNumbers(s.mode.call, Heeded(s, PriSees(s.addr, s.s2p[0]).ctrl), kind);
    case Info(m, nr, payload) =>
      HeardInformation(s, at);
      HeededNumbers(s, PriSees(s.addr, s.s2p[0]).ctrl);
      OutOfSequence(s.mode.call, Heeded(s, PriSees(s.addr, s.s2p[0]).ctrl), s.pos, m, payload, at);
  }

  lemma OutOfSequence(call: Call, x: Xch, r: nat, m: nat, payload: bytes, at: int)
    requires x.taken == [] && x.vr == r % 8 && r - 1 <= m <= r + 1 && m != r
    ensures OnInformation(call, x, m % 8, payload, at).taken == []
  {}

  lemma StalledStep(s: System, step: Step)
    requires Inv(s) && Enabled(s, step) && !CanDeliver(s) && step != IdleTakes(true)
    ensures var t := Apply(s, step); t.taken == s.taken && t.pos == s.pos && !CanDeliver(t)
  {
    hide Inv, Hear, Tags, OwesAnswer, CanDeliver, PrimaryHears, SecondaryHears, Heard, Ticked, Released, KindOf,
         NsOf, Without, Doubled, IdleHears, BeginExchange, PrimaryTicks;
    match step
    case Hears(at) => StalledHears(s, at);
    case Answers(c) => AnswersAdd(s, c); StalledAnswers(s, c);
    case IdleTakes(drain) => StalledIdle(s);
    case _ => StalledOther(s, step);
  }

  lemma StalledAnswers(s: System, c: Choice)
    requires Inv(s) && Enabled(s, Answers(c)) && !CanDeliver(s)
    ensures !CanDeliver(SecondaryHears(s, c))
  {
    hide Commands, Replies, Owed, PrimaryCounts, SecondaryHears;
    AnswersAdd(s, c);
    var t := SecondaryHears(s, c);
    forall i | 0 <= i < |s.s2p| ensures t.s2p[i] == s.s2p[i] {}
  }

  lemma StalledIdle(s: System)
    requires Inv(s) && Enabled(s, IdleTakes(false)) && !CanDeliver(s)
    ensures var t := IdleHears(s, false); t.taken == s.taken && t.pos == s.pos && !CanDeliver(t)
  {
    hide Commands, Owed, ReplyBefore, KindOf, NsOf, NrOf, IControl, SControl, WithoutPf, IdleHears;
    var t := s.(s2p := s.s2p[1..]);
    forall i | 0 <= i < |t.s2p| ensures t.s2p[i] == s.s2p[i + 1] {}
    assert ReplyOk(s, s.s2p[0]);
    assert IdleHears(s, false) == t by {
      match s.s2p[0]
      case Ua => IdleIgnores(s, false);
      case Sup(kind, nr) => IdleIgnores(s, false);
      case Info(m, _, _) => IdleHearsBy(s, m, false);
    }
  }

  lemma IdleIgnores(s: System, drain: bool)
    requires Enabled(s, IdleTakes(drain)) && !s.s2p[0].Info?
    requires (s.s2p[0].Sup? ==> s.s2p[0].kind in {Kind.Rr, Rnr, Rej, Srej})
    ensures IdleHears(s, drain) == s.(s2p := s.s2p[1..])
  {
    hide KindOf, SControl;
    UFramesAreUnnumbered(UA);
    if s.s2p[0].Sup? { SControlRoundTrip(s.s2p[0].kind, s.s2p[0].nr % 8, true); }
  }

  lemma StalledOther(s: System, step: Step)
    requires Enabled(s, step) && !CanDeliver(s) && !step.Hears? && !step.Answers? && !step.IdleTakes?
    ensures var t := Apply(s, step); t.taken == s.taken && t.pos == s.pos && !CanDeliver(t)
  {
    hide OwesAnswer, Tags, Ticked;
    var t := Apply(s, step);
    if step.Ticks? { TicksTakeNothing(s, step.now); assert s.taken + [] == s.taken; }
    forall i | 0 <= i < |t.s2p| ensures t.s2p[i] in s.s2p {}
  }

  /** From then on the primary takes nothing more, whatever the secondary sends and however many exchanges
      pass, until the worker drains the link. */
  lemma {:induction false} NothingUntilDrained(s: System, steps: seq<Step>, t: System)
    requires Inv(s) && !CanDeliver(s) && Runs(s, steps, t) && IdleTakes(true) !in steps
    ensures t.taken == s.taken && t.pos == s.pos && !CanDeliver(t)
    decreases |steps|
  {
    hide Inv, Enabled, Apply, CanDeliver;
    if steps != [] {
      StalledStep(s, steps[0]);
      KeepsStep(s, steps[0]);
      assert forall x | x in steps[1..] :: x in steps;
      NothingUntilDrained(Apply(s, steps[0]), steps[1..], t);
    }
  }

  // ----- V(S) behind the device -----

  /** Where an unacknowledged timeout leaves the primary whose request got through: V(S) is one behind the device's
      V(R). The next request then repeats the N(S) of the last, so the device refuses it; and whatever supervisory
      frame it refuses it with carries the N(R) that acknowledges it. */
  lemma RefusedYetAcknowledged(s: System, call: Call, now: int, c: Choice, at: int)
    requires Inv(s) && s.mode.Idle? && s.p2s == [] && s.s2p == [] && Next(s.mode.vs) == s.sec.vr
    requires call.addr == s.addr && Enabled(BeginExchange(s, call, now), Answers(c))
    ensures var u := SecondaryHears(BeginExchange(s, call, now), c);
      && u.accepted == s.accepted && u.sec.pending == s.sec.pending && Enabled(u, Hears(at))
      && var t := PrimaryHears(u, at);
      && t.mode.Busy? && t.mode.x.acked && t.mode.x.vs == t.sec.vr && t.accepted == s.accepted
      && t.issued == s.issued + [call.message]
  {
    hide Inv, SecondaryHears, PrimaryHears, BeginExchange;
    var b := BeginExchange(s, call, now);
    BegunLine(s, call, now);
    KeepsUnderStart(s, call, now);
    KeepsUnderAnswers(b, c);
    RefusesRepeated(b, c);
    var u := SecondaryHears(b, c);
    RefusalAcks(u, at);
  }

  lemma BegunLine(s: System, call: Call, now: int)
    requires s.mode.Idle? && s.p2s == []
    ensures var b := BeginExchange(s, call, now);
      && |b.p2s| == 1 && b.p2s[0].Cmd? && b.p2s[0].ns == s.mode.vs
      && b.s2p == s.s2p && b.sec == s.sec && b.accepted == s.accepted && b.issued == s.issued + [call.message]
      && b.mode.Busy? && b.mode.x.sentNs == s.mode.vs && !b.mode.x.acked
  {
    hide Tags, Unguarded;
    var t := s.(issued := s.issued + [call.message], base := s.pos, doubt := s.doubt || Unguarded(s, call));
    OneTag(t, SentI(call.addr, s.mode.vs, s.mode.vr, call.message));
  }

  lemma RefusesRepeated(b: System, c: Choice)
    requires Inv(b) && Enabled(b, Answers(c)) && |b.p2s| == 1 && b.p2s[0].Cmd? && b.p2s[0].ns != b.sec.vr && b.s2p == []
    ensures var u := SecondaryHears(b, c);
      && u == b.(p2s := [], s2p := [Sup(c.kind, |b.accepted|)], sec := u.sec)
      && u.sec.pending == b.sec.pending && u.sec.vr == b.sec.vr == |b.accepted| % 8
  {
    hide SecondaryHears, Commands, Replies, Owed, PrimaryCounts;
    HeardCommand(b, c);
    assert b.s2p + [Sup(c.kind, |b.accepted|)] == [Sup(c.kind, |b.accepted|)];
  }

  /** An N(R) one past the request acknowledges it, and a REJ or SREJ that carries it brings nothing again. */
  lemma RefusalAcks(u: System, at: int)
    requires Inv(u) && u.mode.Busy? && |u.s2p| == 1 && u.s2p[0].Sup?
    requires u.s2p[0].nr % 8 == u.sec.vr == Next(u.mode.x.sentNs) && !u.mode.x.acked
    ensures Enabled(u, Hears(at))
    ensures var t := PrimaryHears(u, at);
      && t.mode.Busy? && t.mode.x.acked && t.mode.x.vs == t.sec.vr && t.accepted == u.accepted && t.issued == u.issued
  {
    hide Inv, Heard, Heeded, Tags, Reacted, PriSees, PrimaryCounts;
    CourseHolds(u);
    HeardSupervisory(u, at);
    var ctrl := PriSees(u.addr, u.s2p[0]).ctrl;
    FirstAck(u, ctrl);
    ReactedSilently(u.(s2p := u.s2p[1..]), u.mode.call, Heard(u, at));
  }

  lemma FirstAck(u: System, ctrl: byte)
    requires u.mode.Busy? && NrOf(ctrl) == Next(u.mode.x.sentNs) && !u.mode.x.acked && u.mode.x.outcome == Running
    ensures var y := Heeded(u, ctrl);
      y.acked && y.vs == Next(u.mode.x.sentNs) && y.outcome == Running && y.writes == [] && y.taken == []
  {
    hide NrOf;
  }

  // ----- an answer still owed -----

  /** Begun now, the exchange returns after `steps` before the secondary has heard its request. */
  ghost predicate ReturnsEarly(s: System, call: Call, now: int, steps: seq<Step>, t: System, at: int)
    requires s.mode.Idle?
  {
    && Runs(BeginExchange(s, call, now), steps, t) && |t.issued| == |s.issued| + 1
    && Enabled(t, Hears(at)) && Heard(t, at).outcome.Returned? && t.accepted != t.issued
  }

  /** Steps that begin no other exchange and do not end the present one put nothing in doubt. */
  lemma {:induction false} SameExchange(s: System, steps: seq<Step>, t: System)
    requires Inv(s) && Runs(s, steps, t)
    ensures |s.issued| <= |t.issued|
    ensures t.mode.Busy? && |t.issued| == |s.issued| ==> s.mode.Busy? && t.doubt == s.doubt
    decreases |steps|
  {
    hide Inv, Enabled, Apply;
    if steps != [] {
      KeepsStep(s, steps[0]);
      SameExchangeStep(s, steps[0]);
      SameExchange(Apply(s, steps[0]), steps[1..], t);
    }
  }

  lemma SameExchangeStep(s: System, step: Step)
    requires Inv(s) && Enabled(s, step)
    ensures var t := Apply(s, step);
      && |s.issued| <= |t.issued|
      && (t.mode.Busy? && |t.issued| == |s.issued| ==> s.mode.Busy? && t.doubt == s.doubt)
  {
    hide Inv, Unguarded, Tags, PrimaryHears, Hear, KindOf, NsOf;
    if step.Hears? { KeepsUnderHears(s, step.at); HearsIssues(s, step.at); }
  }

  lemma HearsIssues(s: System, at: int)
    requires Enabled(s, Hears(at))
    ensures PrimaryHears(s, at).issued == s.issued
  {
    hide Heard, Tags;
  }

  /** No early return when nothing of the kind is owed. */
  lemma NotOwedNotEarly(s: System, call: Call, now: int, steps: seq<Step>, t: System, at: int)
    requires Inv(s) && !s.doubt && s.mode.Idle? && call.addr == s.addr && RefusesReports(call.router)
    requires ReturnsEarly(s, call, now, steps, t, at)
    ensures OwesAnswer(s, call)
  {
    hide Inv, Heard, OwesAnswer, RefusesReports, PrimaryHears, Tags, Runs;
    if !OwesAnswer(s, call) {
      var b := BeginExchange(s, call, now);
      assert Enabled(s, Start(call, now));
      KeepsUnderStart(s, call, now);
      KeepsRun(b, steps, t);
      SameExchange(b, steps, t);
      KeepsUnderHears(t, at);
      ReturnedIsIdle(t, at);
      IdleAccepted(PrimaryHears(t, at));
    }
  }

  lemma IdleAccepted(s: System)
    requires Inv(s) && !s.doubt && s.mode.Idle?
    ensures s.accepted == s.issued
  {}

  /** In an exchange whose request the device has not heard. */
  ghost predicate Pending(t: System, call: Call)
  {
    && t.mode.Busy? && t.mode.call == call && call.addr == t.addr && t.mode.x.vr == t.pos % 8
    && t.mode.x.outcome == Running && !t.mode.x.acked && t.mode.x.sentNs == |t.accepted| % 8
  }

  /** In an exchange whose request is lost, with nothing but an inviting RR on the lines. */
  ghost predicate Invited(s: System, t: System, call: Call)
  {
    && Pending(t, call)
    && t.p2s == [Ack(t.pos, true)] && t.s2p == []
    && StationCounts(t) && Released(t) <= t.pos <= |t.stream|
    && |t.issued| == |s.issued| + 1 && t.accepted == s.accepted && |s.accepted| == |s.issued|
  }

  /** The device answers truthfully and at once. */
  const ANSWERING := Choice([], false, None, Kind.Rr)

  /** What the device has then offered: the I-frame at V(R), with an answer to come if it is not one itself. */
  ghost predicate Offered(t: System, u: System, call: Call)
  {
    && u.mode == t.mode && u.addr == t.addr && u.p2s == [] && u.pos == t.pos && u.issued == t.issued
    && u.accepted == t.accepted
    && StationCounts(u) && Released(u) <= u.pos && |u.stream| == u.pos + 1
    && u.s2p == [Info(u.pos, |u.accepted|, u.stream[u.pos])]
    && (call.router(u.stream[u.pos]) == Accept
        || (|t.stream| == |u.stream| && u.sec.pending.Some? && call.router(u.sec.pending.value) == Accept))
  }

  /** Invited, the device offers again what the primary has not taken. */
  lemma OffersAgain(s: System, t: System, call: Call)
    requires Invited(s, t, call) && MayAnswer(t, call.router) && |t.stream| == t.pos + 1
    ensures Offered(t, CountedHears(t, ANSWERING), call)
  {
    hide RetapRouter;
    assert FreedBy(t.(p2s := []), t.pos) == t.(p2s := []);
    assert t.p2s[1..] == [];
    if !(t.sec.pending.Some? && call.router(t.sec.pending.value) == Accept) {
      var i :| t.pos <= i < |t.stream| && call.router(t.stream[i]) == Accept;
    }
  }

  /** Or it sends the response it was working on. */
  lemma SendsResponse(s: System, t: System, call: Call)
    requires Invited(s, t, call) && MayAnswer(t, call.router) && |t.stream| == t.pos
    ensures Offered(t, CountedHears(t, ANSWERING), call)
  {
    hide RetapRouter, Next;
    NextOf(|t.stream|);
    assert t.p2s[1..] == [];
    var u := t.(p2s := [], sec := t.sec.(out := None));
    assert FreedBy(t.(p2s := []), t.pos) == u;
    assert CountedHears(t, ANSWERING) == Answered(u, ANSWERING);
    assert CountedHears(t, ANSWERING) == Send(Unpending(u), t.sec.pending.value);
  }

  lemma InvitedAnswers(s: System, t: System, call: Call)
    requires Invited(s, t, call) && MayAnswer(t, call.router)
    ensures Enabled(t, Answers(ANSWERING)) && Offered(t, SecondaryHears(t, ANSWERING), call)
  {
    hide SecondaryHears, RetapRouter, CountedHears, Offered, MayAnswer;
    HeardAck(t, ANSWERING);
    if |t.stream| == t.pos { SendsResponse(s, t, call); } else { OffersAgain(s, t, call); }
  }

  /** In an exchange, the I-frame at V(R) is the next frame to be heard. */
  ghost predicate HeardNext(u: System, call: Call)
  {
    && Pending(u, call)
    && u.p2s == [] && u.s2p != [] && u.pos < |u.stream|
    && u.s2p[0].Info? && u.s2p[0].m == u.pos && u.s2p[0].payload == u.stream[u.pos] && u.s2p[0].nr == |u.accepted|
  }

  /** If it is an answer to this call the exchange returns. */
  lemma NextReturns(u: System, call: Call, at: int)
    requires HeardNext(u, call) && call.router(u.stream[u.pos]) == Accept
    ensures Enabled(u, Hears(at)) && Heard(u, at).outcome.Returned? && Heard(u, at).vs == Next(|u.accepted| % 8)
  {
    hide Heard, Heeded, RetapRouter, PriSees, Next;
    InformationHeard(u, at);
    HeededNumbers(u, PriSees(u.addr, u.s2p[0]).ctrl);
    HeededPending(u, call);
  }

  /** The device's N(R) asks for the request; it does not acknowledge it. */
  lemma HeededPending(u: System, call: Call)
    requires HeardNext(u, call)
    ensures var y := Heeded(u, PriSees(u.addr, u.s2p[0]).ctrl);
      && !y.acked && y.sentNs == u.mode.x.sentNs && y.writes == [] && y.outcome == Running
      && y.deadline == u.mode.x.deadline
  {
    hide NrOf, NsOf, KindOf, HasPf, IControl;
    IControlRoundTrip(u.pos % 8, |u.accepted| % 8);
    NextDiffers(|u.accepted| % 8);
  }

  lemma OtherReaction(call: Call, x: Xch, payload: bytes, at: int)
    requires call.router(payload) != Accept && x.writes == [] && x.taken == []
    ensures var y := OnInformation(call, x, x.vr, payload, at);
      && y.writes == [SentRr(call.addr, y.vr, true)] && y.taken == [payload] && y.vr == Next(x.vr)
      && y.acked == x.acked && y.sentNs == x.sentNs && y.outcome == x.outcome
      && y.missing == x.missing && y.retxLeft == x.retxLeft && y.retxAt == x.retxAt
      && (call.pollInterval >= 0 ==> y.deadline >= Min(x.deadline, at + call.timeout))
  {}

  /** If not, it is acknowledged, and the device invited to send more. */
  lemma NextInvites(u: System, call: Call, at: int)
    requires HeardNext(u, call) && call.router(u.stream[u.pos]) != Accept && call.pollInterval >= 0
    ensures Enabled(u, Hears(at))
    ensures var v := PrimaryHears(u, at);
      && Pending(v, call) && v.mode.x.deadline >= Min(u.mode.x.deadline, at + call.timeout)
      && v.p2s == [Ack(v.pos, true)] && v.s2p == u.s2p[1..] && v.pos == u.pos + 1
      && v.addr == u.addr && v.sec == u.sec && v.stream == u.stream && v.accepted == u.accepted
      && v.issued == u.issued
  {
    hide Heard, Heeded, RetapRouter, PriSees, Tags, Reacted, Next, OnInformation;
    var ctrl := PriSees(u.addr, u.s2p[0]).ctrl;
    InformationHeard(u, at);
    HeededNumbers(u, ctrl);
    HeededPending(u, call);
    NextOf(u.pos);
    OtherReaction(call, Heeded(u, ctrl), u.stream[u.pos], at);
    var x := Heard(u, at);
    assert x.writes == [SentRr(call.addr, x.vr, true)] && x.taken == [u.stream[u.pos]];
    ReactedOnce(u.(s2p := u.s2p[1..]), call, x, x.taken, x.writes[0]);
  }

  /** The exchange returns although its request has been lost, and V(S) runs ahead of the device's V(R). */
  ghost predicate Early(s: System, b: System, begun: int, steps: seq<Step>, t: System, c: Beat, at: int, pause: int)
  {
    && Schedule(b, Beat(None, begun), steps, t, c, pause) && MayStep(c, Hears(at), pause)
    && |t.issued| == |s.issued| + 1 && t.accepted != t.issued
    && Enabled(t, Hears(at)) && Heard(t, at).outcome.Returned? && Heard(t, at).vs != t.sec.vr
  }

  /** Invited, the device answers, at the first opportunity or the second. */
  lemma {:induction false} InvitedReturns(
    s: System, b: System, begun: int, steps: seq<Step>, t: System, c: Beat, pause: int, call: Call)
    returns (more: seq<Step>, u: System, d: Beat)
    requires Schedule(b, Beat(None, begun), steps, t, c, pause) && c.left.None? && pause >= 0
    requires Invited(s, t, call) && MayAnswer(t, call.router) && call.pollInterval >= 0 && call.timeout >= 0
    requires |t.stream| > t.pos ==> c.since <= t.mode.x.deadline
    ensures Early(s, b, begun, more, u, d, d.since, pause)
    decreases |t.stream| - t.pos
  {
    hide Schedule, SecondaryHears, PrimaryHears, Heard, MayAnswer, RetapRouter, Enabled, StationCounts, SameCourse;
    InvitedAnswers(s, t, call);
    DeviceAnswers(b, Beat(None, begun), steps, t, c, pause, ANSWERING);
    more, u, d := steps + [Answers(ANSWERING)], SecondaryHears(t, ANSWERING), c;
    StationNumbers(u);
    if call.router(u.stream[u.pos]) == Accept {
      NextReturns(u, call, c.since);
      NextDiffers(|u.accepted| % 8);
    } else {
      var at := c.since;
      NextInvites(u, call, at);
      FrameHandled(b, Beat(None, begun), more, u, c, pause, at);
      var v := PrimaryHears(u, at);
      SameStation(u, v);
      OnlyPending(u, v, call);
      more, v, d := TicksUnheard(b, Beat(None, begun), more + [Hears(at)], v, Beat(Some(0), at), pause, at);
      StillPending(PrimaryHears(u, at), v, call);
      more, u, d := InvitedReturns(s, b, begun, more, v, d, pause, call);
    }
  }

  lemma StillPending(s: System, t: System, call: Call)
    requires Pending(s, call) && SameCall(s, t)
    ensures Pending(t, call)
    ensures StationCounts(s) ==> StationCounts(t)
    ensures MayAnswer(s, call.router) ==> MayAnswer(t, call.router)
  {}

  lemma StationNumbers(s: System)
    requires StationCounts(s)
    ensures s.sec.vr == |s.accepted| % 8
  {}

  lemma OnlyPending(u: System, v: System, call: Call)
    requires v.sec == u.sec && u.sec.pending.Some? && call.router(u.sec.pending.value) == Accept
    ensures MayAnswer(v, call.router)
  {}

  lemma SameStation(s: System, t: System)
    requires StationCounts(s) && t.addr == s.addr && t.sec == s.sec && t.stream == s.stream && t.accepted == s.accepted
    ensures StationCounts(t)
  {}

  /** The exchange has begun, its request is lost, and so is all else on the way to the device. */
  ghost predicate Unheard(s: System, b: System, call: Call)
  {
    && Pending(b, call)
    && b.p2s == [] && b.s2p == s.s2p && b.addr == s.addr && b.sec == s.sec && b.stream == s.stream && b.pos == s.pos
    && b.accepted == s.accepted && |b.issued| == |s.issued| + 1 && |s.accepted| == |s.issued|
  }

  lemma BegunUnheard(s: System, call: Call, begun: int, pause: int)
    returns (steps: seq<Step>, t: System)
    requires Inv(s) && !s.doubt && s.mode.Idle? && call.addr == s.addr
    ensures Schedule(BeginExchange(s, call, begun), Beat(None, begun), steps, t, Beat(None, begun), pause)
    ensures Unheard(s, t, call)
    ensures t.mode == Busy(call, Begin(call, s.mode.vs, s.mode.vr, true, NO_STATS, begun))
  {
    hide Tags, Schedule, Commands, Replies, Owed, Counts;
    var b := BeginExchange(s, call, begun);
    ScheduleEnds(b, Beat(None, begun), pause);
    steps := CommandsLost(b, Beat(None, begun), [], b, Beat(None, begun), pause);
    t := b.(p2s := []);
  }

  /** When the device has let go of nothing ahead of V(R), one poll invites it. */
  lemma PolledEarly(s: System, call: Call, b: System, begun: int, steps: seq<Step>, t: System, pause: int)
    returns (more: seq<Step>, u: System, d: Beat)
    requires Inv(s) && s.mode.Idle? && call.addr == s.addr && Released(s) <= s.pos && MayAnswer(s, call.router)
    requires call.pollInterval >= 0 && 0 <= 2 * pause <= call.timeout
    requires Schedule(b, Beat(None, begun), steps, t, Beat(None, begun), pause) && Unheard(s, t, call)
    requires t.mode == Busy(call, Begin(call, s.mode.vs, s.mode.vr, true, NO_STATS, begun))
    ensures Early(s, b, begun, more, u, d, d.since, pause)
  {
    hide Schedule, Commands, Replies, Owed, Tags, Reacted, Early, PrimaryCounts, RetapRouter, Ticked, PrimaryTicks;
    more := RepliesLost(b, Beat(None, begun), steps, t, Beat(None, begun), pause, |t.s2p|);
    var v := t.(s2p := []);
    assert t.s2p[|t.s2p|..] == [];
    TickGoesOn(v, begun + pause);
    TicksIs(v, begun + pause);
    ScheduleOn(b, Beat(None, begun), more, v, Beat(None, begun), pause, Ticks(begun + pause));
    var w := PrimaryTicks(v, begun + pause);
    SameStation(s, w);
    more, d := more + [Ticks(begun + pause)], Beat(None, begun + 2 * pause);
    more, u, d := InvitedReturns(s, b, begun, more, w, d, pause, call);
  }

  /** When it has, the copy under way is heard first. */
  lemma HeardEarly(
    s: System, call: Call, b: System, begun: int, steps: seq<Step>, t: System, i: nat, pause: int)
    returns (more: seq<Step>, u: System, d: Beat)
    requires Inv(s) && !s.doubt && s.mode.Idle? && call.addr == s.addr && MayAnswer(s, call.router)
    requires Released(s) == s.pos + 1
    requires i < |s.s2p| && s.s2p[i].Info? && s.s2p[i].m == s.pos
    requires call.pollInterval >= 0 && 0 <= 2 * pause <= call.timeout
    requires Schedule(b, Beat(None, begun), steps, t, Beat(None, begun), pause) && Unheard(s, t, call)
    requires t.mode.x.deadline == begun + call.timeout
    ensures Early(s, b, begun, more, u, d, d.since, pause)
  {
    hide Schedule, Commands, Owed, Tags, Reacted, PrimaryCounts, RetapRouter, PrimaryHears, Heard, Enabled, SameCourse;
    assert ReplyOk(s, s.s2p[i]);
    more := RepliesLost(b, Beat(None, begun), steps, t, Beat(None, begun), pause, i);
    u, d := t.(s2p := t.s2p[i..]), Beat(None, begun);
    if call.router(u.stream[u.pos]) == Accept {
      NextReturns(u, call, begun);
      NextDiffers(|u.accepted| % 8);
    } else {
      NextInvites(u, call, begun);
      FrameHandled(b, Beat(None, begun), more, u, d, pause, begun);
      var v := PrimaryHears(u, begun);
      d := Beat(Some(|u.s2p| - 1), begun);
      more, v, d := TicksUnheard(b, Beat(None, begun), more + [Hears(begun)], v, d, pause, begun);
      StillPending(PrimaryHears(u, begun), v, call);
      more := RepliesLost(b, Beat(None, begun), more, v, d, pause, |v.s2p|);
      var w := v.(s2p := []);
      assert v.s2p[|v.s2p|..] == [];
      SameStation(s, w);
      MayAnswerOn(s, w, call.router);
      more, u, d := InvitedReturns(s, b, begun, more, w, d, pause, call);
    }
  }

  lemma MayAnswerOn(s: System, t: System, router: Router)
    requires MayAnswer(s, router) && t.sec == s.sec && t.stream == s.stream && t.pos == s.pos + 1
    requires s.pos < |s.stream| && router(s.stream[s.pos]) != Accept
    ensures MayAnswer(t, router)
  {}

  /** Begun then, the exchange can return, on a schedule of its loop, before the device has heard its request, and
      then leaves V(S) ahead of the device's V(R). */
  ghost predicate AnsweredBefore(s: System, call: Call, begun: int, pause: int)
    requires s.mode.Idle?
  {
    exists steps, t, c, at ::
      && ReturnsEarly(s, call, begun, steps, t, at) && Heard(t, at).vs != t.sec.vr
      && Schedule(BeginExchange(s, call, begun), Beat(None, begun), steps, t, c, pause) && MayStep(c, Hears(at), pause)
  }

  /** From every state between exchanges with the count of commands not in doubt, for every call on that address
      that takes no report for its answer: the exchange can return before
      the device has heard its request if and only if the device owes an answer this call would take for its own.
      And if it can, it can whenever it begins, on a schedule of its loop, with any polling interval that fits twice
      into its time, while the device does all it should; and it leaves V(S) ahead. That it can is said of timeouts
      and intervals that are not negative; the sleep between polls takes no negative one. */
  lemma EarlyReturnExactly(s: System, call: Call, begun: int, pause: int)
    requires Inv(s) && !s.doubt && s.mode.Idle? && call.addr == s.addr && RefusesReports(call.router)
    ensures (exists now, steps, t, at :: ReturnsEarly(s, call, now, steps, t, at)) ==> OwesAnswer(s, call)
    ensures call.timeout >= 0 && call.pollInterval >= 0 ==>
              ((exists now, steps, t, at :: ReturnsEarly(s, call, now, steps, t, at)) <==> OwesAnswer(s, call))
    ensures OwesAnswer(s, call) && 0 <= 2 * pause <= call.timeout && call.pollInterval >= 0 ==>
              AnsweredBefore(s, call, begun, pause)
  {
    hide Inv, Runs, Schedule, RetapRouter, BeginExchange, Heard, MayAnswer, CanDeliver;
    forall now, steps, t, at | ReturnsEarly(s, call, now, steps, t, at) ensures OwesAnswer(s, call) {
      NotOwedNotEarly(s, call, now, steps, t, at);
    }
    if OwesAnswer(s, call) && call.timeout >= 0 && call.pollInterval >= 0 {
      var steps0, t0, c0 := EarlyReturn(s, call, begun, 0);
      assert ReturnsEarly(s, call, begun, steps0, t0, c0.since);
      if 0 <= 2 * pause <= call.timeout {
        var steps, t, c := EarlyReturn(s, call, begun, pause);
      }
    }
  }

  lemma EarlyReturn(s: System, call: Call, begun: int, pause: int)
    returns (more: seq<Step>, u: System, d: Beat)
    requires Inv(s) && !s.doubt && s.mode.Idle? && call.addr == s.addr && OwesAnswer(s, call)
    requires call.pollInterval >= 0 && 0 <= 2 * pause <= call.timeout
    ensures Early(s, BeginExchange(s, call, begun), begun, more, u, d, d.since, pause)
    ensures ReturnsEarly(s, call, begun, more, u, d.since)
  {
    hide Runs, Schedule, RetapRouter, BeginExchange, MayAnswer, Commands, Replies, Owed, PrimaryCounts, Heard, Enabled;
    var b := BeginExchange(s, call, begun);
    var steps, t := BegunUnheard(s, call, begun, pause);
    if Released(s) <= s.pos {
      more, u, d := PolledEarly(s, call, b, begun, steps, t, pause);
    } else {
      var i :| 0 <= i < |s.s2p| && s.s2p[i].Info? && s.s2p[i].m == s.pos;
      more, u, d := HeardEarly(s, call, b, begun, steps, t, i, pause);
    }
    ScheduleRuns(b, Beat(None, begun), more, u, d, pause);
  }

  // ----- such a state is reached -----

  /** The device takes a request it will answer like this, and works on it. */
  function Working(response: bytes): Choice
  {
    Choice(response, true, None, Kind.Rr)
  }

  /** In an exchange begun at zero whose request the device has acknowledged and works on. */
  ghost predicate Waiting(s: System, message: bytes, response: bytes)
  {
    && s.addr == 1 && s.mode.Busy? && s.mode.call == NewCall(1, message, 3000, 50)
    && s.mode.x.outcome == Running && s.mode.x.acked && s.mode.x.sentNs == 0 && s.mode.x.deadline == 3000
    && s.sec == Station(1, 0, 1, true, Some(response), None) && |s.accepted| == 1 && s.stream == [] && s.pos == 0
    && !s.doubt
  }

  /** The device says it is working. */
  lemma RequestGoesIn(a: System, message: bytes, response: bytes)
    requires Inv(a) && a.mode.Busy? && a.addr == 1 && a.p2s == [Cmd(0, 0, 0, 0, message)] && a.s2p == []
    requires a.sec == Station(1, 0, 0, true, None, None) && a.accepted == [] && a.stream == [] && !a.doubt
    ensures Enabled(a, Answers(Working(response)))
    ensures var b := SecondaryHears(a, Working(response));
      && Inv(b) && b.addr == 1 && b.mode == a.mode && b.s2p == [Sup(Kind.Rr, 1)] && b.p2s == []
      && b.sec == Station(1, 0, 1, true, Some(response), None) && |b.accepted| == 1 && b.stream == [] && b.pos == a.pos
      && !b.doubt
  {
    hide SecondaryHears, Commands, Replies, Owed;
    HeadTaken(a);
    HeardNextCommand(a, Working(response));
    KeepsUnderAnswers(a, Working(response));
  }

  /** Polled, it says so again. */
  lemma StillWorking(a: System, message: bytes, response: bytes)
    requires Inv(a) && Waiting(a, message, response) && a.p2s == [Ack(0, true)] && a.s2p == []
    ensures Enabled(a, Answers(Working(response)))
    ensures var b := SecondaryHears(a, Working(response));
      Inv(b) && Waiting(b, message, response) && b.s2p == [Sup(Kind.Rr, 1)] && b.p2s == []
  {
    hide SecondaryHears, Commands, Replies, Owed, PrimaryCounts;
    StationHolds(a);
    HeardAck(a, Working(response));
    KeepsUnderAnswers(a, Working(response));
  }

  /** That acknowledges the request, if it has not been. */
  lemma RequestAcked(b: System, at: int)
    requires Inv(b) && b.addr == 1 && b.mode.Busy? && b.s2p == [Sup(Kind.Rr, 1)] && b.mode.x.sentNs == 0
    ensures Enabled(b, Hears(at))
    ensures var c := PrimaryHears(b, at);
      && Inv(c) && c == b.(s2p := [], mode := c.mode) && c.mode.Busy? && c.mode.call == b.mode.call
      && c.mode.x.outcome == Running && c.mode.x.acked && c.mode.x.sentNs == 0
      && c.mode.x.deadline == b.mode.x.deadline
  {
    hide Inv, NrOf, SControl, Heard, Heeded, Tags, Reacted, PriSees, PrimaryCounts;
    CourseHolds(b);
    HeardSupervisory(b, at);
    AckHeeded(b, PriSees(1, Sup(Kind.Rr, 1)).ctrl);
    ReactedSilently(b.(s2p := b.s2p[1..]), b.mode.call, Heard(b, at));
    KeepsUnderHears(b, at);
  }

  lemma AckHeeded(b: System, ctrl: byte)
    requires b.mode.Busy? && NrOf(ctrl) == 1 && b.mode.x.sentNs == 0 && b.mode.x.outcome == Running
    ensures var y := Heeded(b, ctrl);
      && y.acked && y.sentNs == 0 && y.outcome == Running && y.deadline == b.mode.x.deadline
      && y.writes == [] && y.taken == []
  {
    hide NrOf;
  }

  /** Poll after poll the device says it is working, until the time is over. */
  lemma {:induction false} WaitsInVain(b: System, steps: seq<Step>, t: System, message: bytes, response: bytes, at: int)
    returns (more: seq<Step>, u: System)
    requires Inv(b) && Schedule(b, Beat(None, 0), steps, t, Beat(Some(0), at), 50)
    requires Inv(t) && Waiting(t, message, response) && t.p2s == [] && t.s2p == [] && at <= 3050 && at % 50 == 0
    ensures Schedule(b, Beat(None, 0), more, u, Beat(Some(0), 3050), 50)
    ensures Inv(u) && Waiting(u, message, response) && u.p2s == [] && u.s2p == []
    decreases 3050 - at
  {
    hide Inv, Schedule, SecondaryHears, PrimaryHears, PrimaryTicks, Ticked, SameCourse;
    if at == 3050 {
      more, u := steps, t;
    } else {
      TickGoesOn(t, at);
      TicksIs(t, at);
      ScheduleOn(b, Beat(None, 0), steps, t, Beat(Some(0), at), 50, Ticks(at));
      var v, c := PrimaryTicks(t, at), Beat(None, at + 50);
      StillWaiting(t, v, message, response);
      KeepsUnderTicks(t, at);
      StillWorking(v, message, response);
      DeviceAnswers(b, Beat(None, 0), steps + [Ticks(at)], v, c, 50, Working(response));
      var w := SecondaryHears(v, Working(response));
      RequestAcked(w, at + 50);
      FrameHandled(b, Beat(None, 0), steps + [Ticks(at)] + [Answers(Working(response))], w, c, 50, at + 50);
      var next := steps + [Ticks(at)] + [Answers(Working(response))] + [Hears(at + 50)];
      more, u := WaitsInVain(b, next, PrimaryHears(w, at + 50), message, response, at + 50);
    }
  }

  lemma StillWaiting(s: System, t: System, message: bytes, response: bytes)
    requires Waiting(s, message, response) && SameCall(s, t)
    ensures Waiting(t, message, response)
  {}

  /** The exchange begun on `s` keeps to a schedule of its loop until `now`, when it gives up, acknowledged or not. */
  ghost predicate GivesUpAt(s: System, call: Call, steps: seq<Step>, now: int, acked: bool, t: System)
  {
    && Enabled(s, Start(call, 0))
    && exists u, c ::
        && Schedule(BeginExchange(s, call, 0), Beat(None, 0), steps, u, c, call.pollInterval)
        && MayStep(c, Ticks(now), call.pollInterval) && Enabled(u, Ticks(now))
        && Ticked(u, now).outcome.TimedOut? && Ticked(u, now).outcome.acked == acked && t == PrimaryTicks(u, now)
  }

  lemma GivesUpThen(s: System, call: Call, steps: seq<Step>, u: System, c: Beat, now: int)
    requires Enabled(s, Start(call, 0)) && Enabled(u, Ticks(now)) && Ticked(u, now).outcome.TimedOut?
    requires Schedule(BeginExchange(s, call, 0), Beat(None, 0), steps, u, c, call.pollInterval)
    requires MayStep(c, Ticks(now), call.pollInterval)
    ensures GivesUpAt(s, call, steps, now, Ticked(u, now).outcome.acked, PrimaryTicks(u, now))
  {
    hide Schedule, BeginExchange, PrimaryTicks, Ticked;
  }

  lemma GivesUpRun(s: System, call: Call, steps: seq<Step>, now: int, acked: bool, t: System)
    requires GivesUpAt(s, call, steps, now, acked, t)
    ensures Runs(s, [Start(call, 0)] + steps + [Ticks(now)], t)
  {
    hide Runs, Schedule, BeginExchange, PrimaryTicks, Ticked;
    var u, c :| Schedule(BeginExchange(s, call, 0), Beat(None, 0), steps, u, c, call.pollInterval)
      && MayStep(c, Ticks(now), call.pollInterval) && Enabled(u, Ticks(now)) && t == PrimaryTicks(u, now);
    BeginsRun(s, call, 0, steps, u, c, call.pollInterval);
    TicksIs(u, now);
    RunsOn(s, [Start(call, 0)] + steps, u, Ticks(now));
  }

  /** Time is over: the exchange gives up, and leaves what it has. */
  lemma GivesUp(u: System, message: bytes, response: bytes)
    requires Inv(u) && Waiting(u, message, response) && u.p2s == [] && u.s2p == []
    requires RetapRouter(message)(response) == Accept
    ensures Enabled(u, Ticks(3050)) && Ticked(u, 3050).outcome.TimedOut? && Ticked(u, 3050).outcome.acked
    ensures var t := PrimaryTicks(u, 3050);
      && Inv(t) && !t.doubt && t.mode.Idle? && t.p2s == [] && t.s2p == [] && t.addr == 1
      && OwesAnswer(t, u.mode.call)
  {
    hide Inv, RetapRouter;
    KeepsUnderTicks(u, 3050);
  }

  /** Whatever the request: the device takes it and works on it for longer than the exchange waits, poll after poll.
      Acknowledged, the exchange gives up with nothing on the lines, and the answer it would have taken is owed. */
  lemma LateAnswerHappens(message: bytes, response: bytes)
    returns (s: System, call: Call, steps: seq<Step>, t: System)
    requires RetapRouter(message)(response) == Accept
    ensures Connected(s) && GivesUpAt(s, call, steps, 3050, true, t) && Inv(t) && !t.doubt
    ensures t.mode.Idle? && t.p2s == [] && t.s2p == [] && OwesAnswer(t, call)
    ensures call == NewCall(t.addr, message, 3000, 50)
  {
    hide Inv, Schedule, SecondaryHears, PrimaryHears, PrimaryTicks, Ticked, BeginExchange, GivesUpAt, OwesAnswer,
         RetapRouter;
    var a, u;
    s, call, a := FreshStart(message);
    ScheduleEnds(a, Beat(None, 0), 50);
    RequestGoesIn(a, message, response);
    var b := SecondaryHears(a, Working(response));
    DeviceAnswers(a, Beat(None, 0), [], a, Beat(None, 0), 50, Working(response));
    RequestAcked(b, 0);
    FrameHandled(a, Beat(None, 0), [] + [Answers(Working(response))], b, Beat(None, 0), 50, 0);
    steps := [] + [Answers(Working(response))] + [Hears(0)];
    steps, u := WaitsInVain(a, steps, PrimaryHears(b, 0), message, response, 0);
    ScheduleRuns(a, Beat(None, 0), steps, u, Beat(Some(0), 3050), 50);
    GivesUp(u, message, response);
    t := PrimaryTicks(u, 3050);
    GivesUpThen(s, call, steps, u, Beat(Some(0), 3050), 3050);
  }

  // ----- and so is one past an unacknowledged timeout -----

  /** In an exchange begun at zero whose request the device has taken, unheard of by the primary. */
  ghost predicate Unanswering(s: System, message: bytes, response: bytes)
  {
    && s.addr == 1 && s.mode.Busy? && s.mode.call == NewCall(1, message, 3000, 50)
    && s.mode.x.outcome == Running && !s.mode.x.acked && !s.mode.x.missing && s.mode.x.deadline == 3000
    && s.mode.x.vs == 0 && s.sec == Station(1, 0, 1, true, Some(response), None) && |s.accepted| == 1
    && s.p2s == [] && s.s2p == []
  }

  /** Poll after poll is lost, until the time is over. */
  lemma {:induction false} PollsInVain(b: System, steps: seq<Step>, t: System, message: bytes, response: bytes, at: int)
    returns (more: seq<Step>, u: System)
    requires Schedule(b, Beat(None, 0), steps, t, Beat(None, at), 50) && at <= 3000 && at % 100 == 0
    requires Unanswering(t, message, response)
    ensures Schedule(b, Beat(None, 0), more, u, Beat(None, 3000), 50) && Unanswering(u, message, response)
    decreases 3000 - at
  {
    hide Schedule, PrimaryTicks, Ticked;
    if at == 3000 {
      more, u := steps, t;
    } else {
      var v, d := t, Beat(None, at);
      more, v, d := TicksUnheard(b, Beat(None, 0), steps, t, Beat(None, at), 50, at + 50);
      more, u := PollsInVain(b, more, v, message, response, at + 100);
    }
  }

  /** The device takes the request, but its acknowledgement and every poll are lost: the exchange gives up
      unacknowledged, and V(S) is one behind the device's V(R). */
  lemma UnackedHappens(message: bytes, response: bytes)
    returns (s: System, call: Call, steps: seq<Step>, t: System)
    ensures Connected(s) && GivesUpAt(s, call, steps, 3050, false, t)
    ensures Inv(t) && t.doubt && t.mode.Idle? && Next(t.mode.vs) == t.sec.vr && t.p2s == [] && t.s2p == []
    ensures call == NewCall(t.addr, message, 3000, 50)
  {
    hide Inv, Schedule, SecondaryHears, PrimaryTicks, Ticked, BeginExchange, GivesUpAt;
    var b, u;
    s, call, b := FreshStart(message);
    ScheduleEnds(b, Beat(None, 0), 50);
    RequestGoesIn(b, message, response);
    var v := SecondaryHears(b, Working(response));
    DeviceAnswers(b, Beat(None, 0), [], b, Beat(None, 0), 50, Working(response));
    steps := [] + [Answers(Working(response))];
    LosesReply(b, Beat(None, 0), steps, v, Beat(None, 0), 50, 0);
    var w := v.(s2p := Without(v.s2p, 0));
    steps, u := PollsInVain(b, steps + [LoseReply(0)], w, message, response, 0);
    ScheduleRuns(b, Beat(None, 0), steps, u, Beat(None, 3000), 50);
    KeepsRun(b, steps, u);
    t := PrimaryTicks(u, 3050);
    KeepsUnderTicks(u, 3050);
    GivesUpUnacked(u, message, response);
    GivesUpThen(s, call, steps, u, Beat(None, 3000), 3050);
  }

  lemma GivesUpUnacked(u: System, message: bytes, response: bytes)
    requires Unanswering(u, message, response)
    ensures var t := PrimaryTicks(u, 3050);
      && Unanswered(Ticked(u, 3050).outcome) && t.doubt && t.mode.Idle? && t.mode.vs == 0 && t.sec == u.sec
      && t.p2s == [] && t.s2p == [] && t.addr == 1
  {}
}
