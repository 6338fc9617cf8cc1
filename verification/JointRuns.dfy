/** What the joint invariant means for every run, and that the steps of a run are those of `exchange`. */
module JointRuns {
  import opened Bits
  import opened Control
  import opened Link
  import opened Numbers
  import opened Secondary
  import opened Lockstep
  import opened Agreement

  /** The steps of a run, each possible where it is taken. */
  ghost predicate Runs(s: System, steps: seq<Step>, t: System)
    decreases |steps|
  {
    if steps == [] then s == t
    else Enabled(s, steps[0]) && Runs(Apply(s, steps[0]), steps[1..], t)
  }

  lemma {:induction false} KeepsRun(s: System, steps: seq<Step>, t: System)
    requires Inv(s) && Runs(s, steps, t)
    ensures Inv(t)
    decreases |steps|
  {
    hide Inv, Enabled, Apply;
    if steps != [] {
      KeepsStep(s, steps[0]);
      KeepsRun(Apply(s, steps[0]), steps[1..], t);
    }
  }

  /** The step puts the count of commands in doubt: it begins an exchange that can be answered with what was not
      meant for it, or gives one up unacknowledged. */
  ghost predicate Doubtful(s: System, step: Step)
    requires Enabled(s, step)
  {
    match step
    case Start(call, _) => Unguarded(s, call)
    case Ticks(now) => Unanswered(Ticked(s, now).outcome)
    case _ => false
  }

  ghost predicate SomeDoubtful(s: System, steps: seq<Step>)
    decreases |steps|
  {
    steps != [] && Enabled(s, steps[0]) && (Doubtful(s, steps[0]) || SomeDoubtful(Apply(s, steps[0]), steps[1..]))
  }

  lemma DoubtByStep(s: System, step: Step)
    requires Inv(s) && Enabled(s, step)
    ensures Apply(s, step).doubt <==> s.doubt || Doubtful(s, step)
  {
    hide Inv, Unguarded, Tags, PrimaryHears, SecondaryHears, KindOf, NsOf;
    if step.Hears? { KeepsUnderHears(s, step.at); }
    if step.Answers? { AnswersLeaveMode(s, step.choice); }
  }

  /** The count of commands has come into doubt exactly when such a step is among the steps. */
  lemma {:induction false} DoubtExactly(s: System, steps: seq<Step>, t: System)
    requires Inv(s) && Runs(s, steps, t)
    ensures t.doubt <==> s.doubt || SomeDoubtful(s, steps)
    decreases |steps|
  {
    hide Inv, Enabled, Apply, Doubtful;
    if steps != [] {
      DoubtByStep(s, steps[0]);
      KeepsStep(s, steps[0]);
      DoubtExactly(Apply(s, steps[0]), steps[1..], t);
    }
  }

  /** Over any run from a fresh connection without such a step: between exchanges V(S) is the secondary's V(R) and
      every request issued has been accepted exactly once, in order; inside one, all but at most the present request
      have, and that one has too if it was acknowledged. */
  lemma CommandLockstep(s: System, steps: seq<Step>, t: System)
    requires Connected(s) && Runs(s, steps, t) && !SomeDoubtful(s, steps)
    ensures t.mode.Idle? ==> t.mode.vs == t.sec.vr && t.accepted == t.issued
    ensures t.mode.Busy? ==>
              && t.issued != []
              && (t.accepted == t.issued || t.accepted == t.issued[..|t.issued| - 1])
              && (t.mode.x.acked ==> t.accepted == t.issued && t.mode.x.vs == t.sec.vr)
  {
    hide Inv, Runs, SomeDoubtful;
    InvInit(s);
    KeepsRun(s, steps, t);
    DoubtExactly(s, steps, t);
    LockstepByCount(t);
  }

  lemma LockstepByCount(t: System)
    requires Inv(t) && !t.doubt
    ensures t.mode.Idle? ==> t.mode.vs == t.sec.vr && t.accepted == t.issued
    ensures t.mode.Busy? ==>
              && t.issued != []
              && (t.accepted == t.issued || t.accepted == t.issued[..|t.issued| - 1])
              && (t.mode.x.acked ==> t.accepted == t.issued && t.mode.x.vs == t.sec.vr)
  {
    hide Commands, Replies, Owed, RefusesReports;
  }

  /** The step writes a request again while V(R) stands seven past its N(R), modulo eight. */
  ghost predicate SevenPast(s: System, step: Step)
    requires Enabled(s, step)
  {
    match step
    case Hears(at) => Resends(Heard(s, at).writes) && (s.pos + |Heard(s, at).taken| - s.base) % 8 == 7
    case Ticks(now) => Resends(Ticked(s, now).writes) && (s.pos - s.base) % 8 == 7
    case _ => false
  }

  ghost predicate SomeSevenPast(s: System, steps: seq<Step>)
    decreases |steps|
  {
    steps != [] && Enabled(s, steps[0]) && (SevenPast(s, steps[0]) || SomeSevenPast(Apply(s, steps[0]), steps[1..]))
  }

  lemma TicksTakeNothing(s: System, now: int)
    requires s.mode.Busy?
    ensures Ticked(s, now).taken == []
  {}

  lemma StaleByStep(s: System, step: Step)
    requires Enabled(s, step)
    ensures Apply(s, step).stale <==> s.stale || SevenPast(s, step)
  {
    hide OwesAnswer, Tags, Heard, Ticked, Hear, Resends;
    if step.Ticks? { TicksTakeNothing(s, step.now); }
  }

  /** A run has gone stale exactly when such a step is among its steps. */
  lemma {:induction false} StaleExactly(s: System, steps: seq<Step>, t: System)
    requires Runs(s, steps, t)
    ensures t.stale <==> s.stale || SomeSevenPast(s, steps)
    decreases |steps|
  {
    hide Enabled, Apply, SevenPast;
    if steps != [] {
      StaleByStep(s, steps[0]);
      StaleExactly(Apply(s, steps[0]), steps[1..], t);
    }
  }

  /** Over any run from a fresh connection on which no request is written again with V(R) seven past its N(R) -
      through timeouts of every kind, and whatever the secondary owes when an exchange begins: what exchanges,
      keep-alive reads and drains took is exactly what the secondary has sent, in order, without duplicate or gap,
      but for the one I-frame it may still be offering; and V(R) is that frame's N(S). */
  lemma InboundDelivery(s: System, steps: seq<Step>, t: System)
    requires Connected(s) && Runs(s, steps, t) && !SomeSevenPast(s, steps)
    ensures t.stream == t.taken || (t.sec.out.Some? && t.stream == t.taken + [t.sec.out.value])
    ensures t.sec.out.None? ==> t.stream == t.taken
    ensures t.mode.Idle? && t.stream == t.taken ==> t.mode.vr == t.sec.vs
  {
    hide Inv, Runs, SomeSevenPast;
    InvInit(s);
    KeepsRun(s, steps, t);
    StaleExactly(s, steps, t);
    TakenByCount(t);
  }

  lemma TakenByCount(t: System)
    requires Inv(t) && !t.stale
    ensures t.stream == t.taken || (t.sec.out.Some? && t.stream == t.taken + [t.sec.out.value])
    ensures t.sec.out.None? ==> t.stream == t.taken
    ensures t.mode.Idle? && t.stream == t.taken ==> t.mode.vr == t.sec.vs
  {
    hide Commands, Replies, Owed, Numbered;
  }

  lemma ReturnedIsIdle(s: System, at: int)
    requires Enabled(s, Hears(at)) && Heard(s, at).outcome.Returned?
    ensures PrimaryHears(s, at).mode == Idle(Heard(s, at).vs, Heard(s, at).vr)
    ensures var t := PrimaryHears(s, at); t.accepted == s.accepted && t.issued == s.issued && t.sec == s.sec
  {
    hide Heard, Tags;
  }

  /** The I-frame that ends an exchange is the one at V(R). */
  lemma ReturnedIsNext(s: System, at: int)
    requires Inv(s) && Enabled(s, Hears(at)) && Heard(s, at).outcome.Returned?
    ensures s.s2p[0].Info? && s.s2p[0].m == s.pos < |s.stream| && s.mode.call.router(s.stream[s.pos]) == Accept
    ensures Heard(s, at).outcome == Returned(s.stream[s.pos])
  {
    hide Inv, Heard, Heeded, PriSees, KindOf, NsOf, NrOf, WithoutPf, RetapRouter;
    HearsHead(s, at);
    CourseHolds(s);
    HeadIsReply(s);
    match s.s2p[0]
    case Ua => HearsUaNumbers(s, at);
    case Sup(kind, nr) =>
      HeardSupervisory(s, at);
      HeededNumbers(s, PriSees(s.addr, s.s2p[0]).ctrl);
    case Info(m, nr, payload) =>
      HeardInformation(s, at);
      HeededNumbers(s, PriSees(s.addr, s.s2p[0]).ctrl);
  }

  /** What is heard first is a reply; its payload, if it is an I-frame, is what the secondary sent. */
  lemma HeadIsReply(s: System)
    requires Inv(s) && s.mode.Busy? && s.s2p != []
    ensures s.s2p[0].Info? ==>
      var Info(m, _, payload) := s.s2p[0];
      && m < |s.stream| && payload == s.stream[m] && s.mode.x.vr == s.pos % 8 && (m % 8 == s.pos % 8 <==> m == s.pos)
  {
    hide Commands, Owed, ReplyBefore;
    assert ReplyOk(s, s.s2p[0]);
    if s.s2p[0].Info? { NearVr(s, s.s2p[0].m); }
  }

  /** Answers the present call would take are responses to the last command accepted. */
  lemma NextIsLatest(s: System)
    requires Inv(s) && Trusting(s) && s.s2p != [] && s.s2p[0].Info? && s.s2p[0].m == s.pos < |s.stream|
    requires s.mode.call.router(s.stream[s.pos]) == Accept
    ensures IsLatest(s, s.stream[s.pos]) && |s.responses| == |s.accepted|
  {
    hide Commands, Replies, PrimaryCounts, MayAnswer, AnswerIsNew, CanDeliver, RetapRouter;
    HeadDelivers(s);
  }

  /** On the same runs as CommandLockstep, an exchange that returns had its request accepted, and returns what the
      secondary decided to answer to that very request. */
  lemma AnsweredMeansAccepted(s: System, steps: seq<Step>, t: System, at: int)
    requires Connected(s) && Runs(s, steps, t) && !SomeDoubtful(s, steps)
    requires Enabled(t, Hears(at)) && Heard(t, at).outcome.Returned?
    ensures t.accepted != [] && t.accepted == t.issued && t.accepted[|t.accepted| - 1] == t.mode.call.message
    ensures |t.responses| == |t.accepted| && Heard(t, at).outcome == Returned(t.responses[|t.responses| - 1])
    ensures Heard(t, at).vs == t.sec.vr
  {
    hide Inv, Runs, SomeDoubtful, Heard, Enabled, PrimaryHears;
    InvInit(s);
    KeepsRun(s, steps, t);
    DoubtExactly(s, steps, t);
    KeepsUnderHears(t, at);
    ReturnedIsIdle(t, at);
    HearsHead(t, at);
    CourseHolds(t);
    ReturnedIsNext(t, at);
    NextIsLatest(t);
    LockstepByCount(PrimaryHears(t, at));
  }

  /** Only a timeout without an acknowledgement, or an unguarded beginning, puts the count of commands in doubt; and
      after such a timeout V(S) still is the secondary's V(R) exactly when the request never got through, and one
      behind it when it did. */
  lemma DoubtOnlyAfterUnackedTimeout(s: System, steps: seq<Step>, t: System, step: Step)
    requires Connected(s) && Runs(s, steps, t) && !SomeDoubtful(s, steps) && Enabled(t, step) && Apply(t, step).doubt
    ensures step.Ticks? || (step.Start? && Unguarded(t, step.call))
    ensures step.Ticks? ==>
              var x := Ticked(t, step.now);
              && x.outcome == TimedOut(false, x.polls) && PrimaryTicks(t, step.now).mode == Idle(x.vs, x.vr)
              && (x.vs == t.sec.vr <==> |t.accepted| < |t.issued|)
              && (Next(x.vs) == t.sec.vr <==> t.accepted == t.issued)
  {
    hide Inv, Runs, SomeDoubtful, Apply, Unguarded, OwesAnswer;
    InvInit(s);
    KeepsRun(s, steps, t);
    DoubtExactly(s, steps, t);
    DoubtByStep(t, step);
    if step.Ticks? { CourseHolds(t); UnackedByCount(t); }
  }

  lemma UnackedByCount(t: System)
    requires Inv(t) && Trusting(t) && !t.mode.x.acked
    ensures t.mode.x.vs == t.sec.vr <==> |t.accepted| < |t.issued|
    ensures Next(t.mode.x.vs) == t.sec.vr <==> t.accepted == t.issued
  {
    hide Commands, Replies, Owed, RefusesReports;
    NextOf(|t.issued| - 1);
    if (|t.issued| - 1) % 8 == |t.accepted| % 8 { Residues(|t.issued| - 1, |t.accepted|); }
    if |t.issued| % 8 == |t.accepted| % 8 { Residues(|t.issued|, |t.accepted|); }
  }

  // ----- the counts are only counts -----

  /** What the primary writes in a step. */
  function Wrote(s: System, step: Step): seq<Sent>
  {
    match step
    case Start(call, now) => if s.mode.Idle? then Begin(call, s.mode.vs, s.mode.vr, true, NO_STATS, now).writes else []
    case Hears(at) => if s.mode.Busy? && s.s2p != [] then Heard(s, at).writes else []
    case Ticks(now) => if s.mode.Busy? then Ticked(s, now).writes else []
    case Polls(poll) => if s.mode.Idle? then [SentRr(s.addr, s.mode.vr, poll)] else []
    case IdleTakes(drain) =>
      if !s.mode.Idle? || s.s2p == [] then []
      else
        var f := PriSees(s.addr, s.s2p[0]);
        if KindOf(f.ctrl) != I || (!drain && NsOf(f.ctrl) != s.mode.vr) then []
        else [SentRr(s.addr, Next(NsOf(f.ctrl)), drain)]
    case _ => []
  }

  predicate OfPrimary(step: Step)
  {
    step.Start? || step.Hears? || step.Ticks? || step.Polls? || step.IdleTakes?
  }

  /** What the line is said to carry is, frame by frame, what was written. */
  ghost predicate AsWritten(s: System, writes: seq<Sent>)
  {
    forall i | 0 <= i < |writes| :: SecSees(s.addr, Tag(s, writes[i])) == ToFrame(writes[i])
  }

  /** `line` with the frames of `writes` behind it. */
  ghost predicate Carries(addr: byte, before: seq<ToSec>, after: seq<ToSec>, writes: seq<Sent>)
  {
    && |after| == |before| + |writes| && before <= after
    && forall i | 0 <= i < |writes| :: SecSees(addr, after[|before| + i]) == ToFrame(writes[i])
  }

  lemma {:induction false} TagsAt(s: System, writes: seq<Sent>, i: nat)
    requires i < |writes|
    ensures Tags(s, writes)[i] == Tag(s, writes[i])
  {
    if i > 0 { TagsAt(s, writes[1..], i - 1); }
  }

  lemma TagsCarry(s: System, line: seq<ToSec>, writes: seq<Sent>)
    requires AsWritten(s, writes)
    ensures Carries(s.addr, line, line + Tags(s, writes), writes)
  {
    hide Tags, SecSees, Tag, ToFrame;
    forall i | 0 <= i < |writes| ensures (line + Tags(s, writes))[|line| + i] == Tag(s, writes[i]) {
      TagsAt(s, writes, i);
    }
  }

  /** The exchange writes its own request or an RR with its V(R). */
  ghost predicate WritesOwn(call: Call, x: Xch)
  {
    forall i | 0 <= i < |x.writes| ::
      x.writes[i] == SentI(call.addr, x.sentNs, x.sentNr, call.message)
      || (x.writes[i].SentRr? && x.writes[i].addr == call.addr && x.writes[i].nr == x.vr)
  }

  lemma OwnOnInformation(call: Call, x: Xch, ns: seqno, payload: bytes, at: int)
    requires x.writes == []
    ensures var y := OnInformation(call, x, ns, payload, at);
            WritesOwn(call, y) && y.sentNs == x.sentNs && y.sentNr == x.sentNr
  {
    hide Next;
  }

  lemma OwnOnSupervisory(call: Call, x: Xch, kind: Kind)
    requires x.writes == []
    ensures var y := OnSupervisory(call, x, kind); WritesOwn(call, y) && y.sentNs == x.sentNs && y.sentNr == x.sentNr
  {}

  lemma OwnOnFrame(call: Call, x: Xch, f: Timed)
    requires x.writes == []
    ensures WritesOwn(call, OnFrame(call, x, f))
    ensures var y := OnFrame(call, x, f); y.sentNs == x.sentNs && y.sentNr == x.sentNr
  {
    hide KindOf, NrOf, NsOf, WithoutPf, OnInformation, OnSupervisory, Next;
    var Timed(Frame(addr, ctrl, payload), at) := f;
    var y := ApplyAck(NoteMissing(x, ctrl), ctrl);
    OwnOnInformation(call, y, NsOf(ctrl), payload, at);
    OwnOnSupervisory(call, y, KindOf(ctrl));
  }

  lemma OwnAsWritten(s: System, call: Call, x: Xch)
    requires WritesOwn(call, x) && call.addr == s.addr && s.issued != [] && s.issued[|s.issued| - 1] == call.message
    requires x.sentNr == s.base % 8 && x.vr == s.pos % 8
    ensures AsWritten(s, x.writes)
  {}

  lemma HearsAsWritten(s: System, at: int)
    requires Inv(s) && Enabled(s, Hears(at))
    ensures var x := Heard(s, at); AsWritten(s.(taken := s.taken + x.taken, pos := s.pos + |x.taken|), x.writes)
  {
    hide Inv, Commands, Replies, Owed, OnFrame, PriSees, WritesOwn, AsWritten;
    var x := Heard(s, at);
    CourseHolds(s);
    OwnOnFrame(s.mode.call, s.mode.x.(writes := [], taken := []), Timed(PriSees(s.addr, s.s2p[0]), at));
    HearsNumbers(s, at);
    OwnAsWritten(s.(taken := s.taken + x.taken, pos := s.pos + |x.taken|), s.mode.call, x);
  }

  lemma HearsNumbers(s: System, at: int)
    requires Inv(s) && Enabled(s, Hears(at))
    ensures var x := Heard(s, at); x.vr == (s.pos + |x.taken|) % 8
  {
    hide Tags, Heard, Heeded, OnInformation, Inv, PriSees, OnSupervisory, KindOf, NsOf, NrOf, WithoutPf, RetapRouter;
    CourseHolds(s);
    HeadNear(s);
    match s.s2p[0]
    case Ua => HearsUaNumbers(s, at);
    case Sup(kind, nr) =>
      HeardSupervisory(s, at);
      HeededNumbers(s, PriSees(s.addr, s.s2p[0]).ctrl);
      SupervisoryNumbers(s.mode.call, Heeded(s, PriSees(s.addr, s.s2p[0]).ctrl), kind);
    case Info(m, nr, payload) =>
      HeardInformation(s, at);
      HeededNumbers(s, PriSees(s.addr, s.s2p[0]).ctrl);
      InformationNumbers(s.mode.call, Heeded(s, PriSees(s.addr, s.s2p[0]).ctrl), s.pos, m, payload, at);
  }

  lemma HeadNear(s: System)
    requires Inv(s) && s.mode.Busy? && s.s2p != []
    ensures s.s2p[0].Info? ==> s.pos - 1 <= s.s2p[0].m <= s.pos + 1
  {
    hide Commands, Owed, ReplyBefore, PrimaryCounts;
    assert ReplyOk(s, s.s2p[0]);
    if s.s2p[0].Info? { NearVr(s, s.s2p[0].m); }
  }

  lemma HearsUaNumbers(s: System, at: int)
    requires PrimaryCounts(s) && Enabled(s, Hears(at)) && s.s2p[0].Ua?
    ensures Heard(s, at) == s.mode.x.(writes := [], taken := []) && Heard(s, at).vr == s.pos % 8
  {
    hide KindOf, WithoutPf;
    UFramesAreUnnumbered(UA);
  }

  lemma HeededNumbers(s: System, ctrl: byte)
    requires s.mode.Busy?
    ensures var y := Heeded(s, ctrl); y.taken == [] && y.vr == s.mode.x.vr && y.outcome == s.mode.x.outcome
  {
    hide NrOf;
  }

  lemma SupervisoryNumbers(call: Call, x: Xch, kind: Kind)
    ensures OnSupervisory(call, x, kind).taken == x.taken && OnSupervisory(call, x, kind).vr == x.vr
  {}

  lemma InformationNumbers(call: Call, x: Xch, r: nat, m: nat, payload: bytes, at: int)
    requires x.taken == [] && x.vr == r % 8 && r - 1 <= m <= r + 1
    ensures var y := OnInformation(call, x, m % 8, payload, at); y.vr == (r + |y.taken|) % 8
  {
    hide Next;
    NextOf(m);
  }

  lemma TicksAsWritten(s: System, now: int)
    requires Inv(s) && s.mode.Busy?
    ensures AsWritten(s, Ticked(s, now).writes) && Ticked(s, now).taken == []
  {
    hide Inv, AsWritten, Commands, Replies, Owed;
    CourseHolds(s);
    CourseCall(s);
    OwnAsWritten(s, s.mode.call, Ticked(s, now));
  }

  lemma IdleStands(s: System)
    requires Inv(s) && s.mode.Idle?
    ensures s.mode.vr == s.pos % 8
  {}

  lemma StartCarries(s: System, call: Call, now: int)
    requires Inv(s) && Enabled(s, Start(call, now))
    ensures Carries(s.addr, s.p2s, Apply(s, Start(call, now)).p2s, Wrote(s, Start(call, now)))
  {
    hide Inv, Tags, Unguarded, PrimaryHears, PrimaryTicks, IdleHears, SecondaryHears, IControl;
    IdleStands(s);
    var t := s.(issued := s.issued + [call.message], base := s.pos, doubt := s.doubt || Unguarded(s, call));
    TagsCarry(t, s.p2s, Wrote(s, Start(call, now)));
  }

  lemma ReactedCarries(s: System, call: Call, x: Xch, took: seq<bytes>)
    requires AsWritten(s.(taken := s.taken + took, pos := s.pos + |took|), x.writes)
    ensures Carries(s.addr, s.p2s, Reacted(s, call, x, took).p2s, x.writes)
  {
    hide Tags, AsWritten, Carries;
    TagsCarry(s.(taken := s.taken + took, pos := s.pos + |took|), s.p2s, x.writes);
  }

  lemma HearsCarries(s: System, at: int)
    requires Inv(s) && Enabled(s, Hears(at))
    ensures Carries(s.addr, s.p2s, PrimaryHears(s, at).p2s, Heard(s, at).writes)
  {
    hide Inv, Tags, AsWritten, Carries, Heard, Reacted;
    HearsAsWritten(s, at);
    var x := Heard(s, at);
    SameTags(s, x);
    ReactedCarries(s.(s2p := s.s2p[1..]), s.mode.call, x, x.taken);
  }

  lemma SameTags(s: System, x: Xch)
    requires s.s2p != [] && AsWritten(s.(taken := s.taken + x.taken, pos := s.pos + |x.taken|), x.writes)
    ensures AsWritten(s.(s2p := s.s2p[1..], taken := s.taken + x.taken, pos := s.pos + |x.taken|), x.writes)
  {}

  lemma TicksCarries(s: System, now: int)
    requires Inv(s) && s.mode.Busy?
    ensures Carries(s.addr, s.p2s, PrimaryTicks(s, now).p2s, Ticked(s, now).writes)
  {
    hide Inv, Tags, AsWritten, Carries, Ticked, Reacted;
    TicksAsWritten(s, now);
    assert s.(taken := s.taken + [], pos := s.pos + 0) == s by { assert s.taken + [] == s.taken; }
    ReactedCarries(s, s.mode.call, Ticked(s, now), []);
  }

  lemma IdleCarries(s: System, drain: bool)
    requires Inv(s) && Enabled(s, IdleTakes(drain))
    ensures Carries(s.addr, s.p2s, IdleHears(s, drain).p2s, Wrote(s, IdleTakes(drain)))
  {
    hide Inv, Reacted, Heard, Ticked, KindOf, NsOf, IControl, SControl, PriSees, Next;
    IdleStands(s);
  }

  /** On every run, what a step of the primary adds to the line is, frame by frame, what it wrote: requests,
      acknowledgements and polls, within exchanges and between them. */
  lemma LineCarriesTheWrites(s: System, steps: seq<Step>, t: System, step: Step)
    requires Connected(s) && Runs(s, steps, t) && Enabled(t, step) && OfPrimary(step)
    ensures Carries(t.addr, t.p2s, Apply(t, step).p2s, Wrote(t, step))
  {
    hide Inv, Carries, Heard, Ticked, OwesAnswer, PriSees, BeginExchange, PrimaryHears, PrimaryTicks, IdleHears,
         SecondaryHears, Without, Doubled;
    InvInit(s);
    KeepsRun(s, steps, t);
    match step
    case Start(call, now) => StartCarries(t, call, now);
    case Hears(at) => HearsCarries(t, at);
    case Ticks(now) => TicksCarries(t, now);
    case Polls(poll) => PollCarries(t, poll);
    case IdleTakes(drain) => IdleCarries(t, drain);
    case _ =>
  }

  lemma PollCarries(s: System, poll: bool)
    requires Inv(s) && s.mode.Idle?
    ensures Carries(s.addr, s.p2s, s.p2s + [Tag(s, SentRr(s.addr, s.mode.vr, poll))], [SentRr(s.addr, s.mode.vr, poll)])
  {
    hide Inv;
    IdleStands(s);
  }

  // ----- the steps are the exchange -----

  /** Without its record of what was written and taken, and without statistics. */
  function Clear(x: Xch): Xch
  {
    x.(writes := [], taken := [], stats := NO_STATS)
  }

  /** The same exchange, one of them with an empty record. */
  ghost predicate Alike(x: Xch, x0: Xch)
  {
    Clear(x) == Clear(x0) && x0.writes == [] && x0.taken == []
  }

  /** They stay the same, and the record is only added to. */
  ghost predicate Shifted(x: Xch, y: Xch, y0: Xch)
  {
    Clear(y) == Clear(y0) && y.writes == x.writes + y0.writes && y.taken == x.taken + y0.taken
  }

  lemma DuplicateShift(call: Call, x: Xch, x0: Xch, ns: seqno, payload: bytes, at: int)
    requires Alike(x, x0) && ns != x.vr
    ensures Shifted(x, OnInformation(call, x, ns, payload, at), OnInformation(call, x0, ns, payload, at))
  {}

  lemma AnswerShift(call: Call, x: Xch, x0: Xch, ns: seqno, payload: bytes, at: int)
    requires Alike(x, x0) && ns == x.vr && call.router(payload) == Accept
    ensures Shifted(x, OnInformation(call, x, ns, payload, at), OnInformation(call, x0, ns, payload, at))
  {
    hide Next;
  }

  lemma OtherShift(call: Call, x: Xch, x0: Xch, ns: seqno, payload: bytes, at: int)
    requires Alike(x, x0) && ns == x.vr && call.router(payload) != Accept
    ensures Shifted(x, OnInformation(call, x, ns, payload, at), OnInformation(call, x0, ns, payload, at))
  {
    hide Next, Min;
  }

  lemma InformationShift(call: Call, x: Xch, x0: Xch, ns: seqno, payload: bytes, at: int)
    requires Alike(x, x0)
    ensures Shifted(x, OnInformation(call, x, ns, payload, at), OnInformation(call, x0, ns, payload, at))
  {
    hide OnInformation;
    if ns != x.vr { DuplicateShift(call, x, x0, ns, payload, at); }
    else if call.router(payload) == Accept { AnswerShift(call, x, x0, ns, payload, at); }
    else { OtherShift(call, x, x0, ns, payload, at); }
  }

  lemma SupervisoryShift(call: Call, x: Xch, x0: Xch, kind: Kind)
    requires Alike(x, x0)
    ensures Shifted(x, OnSupervisory(call, x, kind), OnSupervisory(call, x0, kind))
  {}

  lemma HeedShift(x: Xch, x0: Xch, ctrl: byte)
    requires Alike(x, x0)
    ensures var y := ApplyAck(NoteMissing(x, ctrl), ctrl);
      Alike(y, ApplyAck(NoteMissing(x0, ctrl), ctrl)) && y.writes == x.writes && y.taken == x.taken
  {
    hide NrOf, Next;
  }

  lemma UnnumberedShift(x: Xch, x0: Xch, ctrl: byte, payload: bytes)
    requires Alike(x, x0)
    ensures Shifted(x, OnUnnumbered(x, ctrl, payload), OnUnnumbered(x0, ctrl, payload))
  {
    hide WithoutPf;
  }

  lemma FrameShift(call: Call, x: Xch, x0: Xch, f: Timed)
    requires Alike(x, x0)
    ensures Shifted(x, OnFrame(call, x, f), OnFrame(call, x0, f))
  {
    hide KindOf, NrOf, NsOf, OnInformation, OnSupervisory, OnUnnumbered, ApplyAck, NoteMissing;
    var ctrl := f.frame.ctrl;
    var y := ApplyAck(NoteMissing(x, ctrl), ctrl);
    var y0 := ApplyAck(NoteMissing(x0, ctrl), ctrl);
    HeedShift(x, x0, ctrl);
    UnnumberedShift(x, x0, ctrl, f.frame.payload);
    InformationShift(call, y, y0, NsOf(ctrl), f.frame.payload, f.at);
    SupervisoryShift(call, y, y0, KindOf(ctrl));
  }

  lemma TickShift(call: Call, x: Xch, x0: Xch, now: int)
    requires Alike(x, x0)
    ensures Shifted(x, AfterBatch(call, x, now), AfterBatch(call, x0, now))
  {}

  /** The joined stations stand where the exchange does. */
  ghost predicate Follows(s: System, call: Call, x: Xch)
  {
    match x.outcome
    case Running => s.mode.Busy? && s.mode.call == call && Clear(s.mode.x) == Clear(x)
    case Returned(_) => s.mode == Idle(x.vs, x.vr)
    case TimedOut(_, _) => s.mode == Idle(x.vs, x.vr)
    case LinkReset(_, _) => s.mode == Lost
  }

  lemma ReactedFollows(s: System, call: Call, x: Xch, y: Xch)
    requires Clear(x) == Clear(y)
    ensures Follows(Reacted(s, call, x, x.taken), call, y) && Reacted(s, call, x, x.taken).taken == s.taken + x.taken
  {
    hide Tags;
  }

  /** One frame heard by the joined stations is one frame handled by the exchange. */
  lemma HearFollows(s: System, call: Call, x: Xch, at: int)
    requires x.outcome.Running? && Follows(s, call, x) && s.s2p != []
    ensures
      var t := PrimaryHears(s, at);
      var y := OnFrame(call, x, Timed(PriSees(s.addr, s.s2p[0]), at));
      && Follows(t, call, y) && t.taken == s.taken + Heard(s, at).taken
      && y.taken == x.taken + Heard(s, at).taken && y.writes == x.writes + Heard(s, at).writes
  {
    hide OnFrame, Reacted, PriSees;
    var f := Timed(PriSees(s.addr, s.s2p[0]), at);
    FrameShift(call, x, s.mode.x.(writes := [], taken := []), f);
    ReactedFollows(s.(s2p := s.s2p[1..]), call, Heard(s, at), OnFrame(call, x, f));
  }

  /** And so for the end of a read. */
  lemma TickFollows(s: System, call: Call, x: Xch, now: int)
    requires x.outcome.Running? && Follows(s, call, x)
    ensures
      var t := PrimaryTicks(s, now);
      var y := AfterBatch(call, x, now);
      && Follows(t, call, y) && t.taken == s.taken + Ticked(s, now).taken
      && y.taken == x.taken + Ticked(s, now).taken && y.writes == x.writes + Ticked(s, now).writes
  {
    hide AfterBatch, Reacted;
    TickShift(call, x, s.mode.x.(writes := [], taken := []), now);
    ReactedFollows(s, call, Ticked(s, now), AfterBatch(call, x, now));
  }

  /** The steps are an exchange that reads `script`: each frame it handles is the head of the line when it does,
      every read ends with the clock's tick, and the other station and the lines do as they please in between.
      Frames of a read that are left when the exchange ends are dropped. */
  ghost predicate Plays(s: System, steps: seq<Step>, script: seq<Pass>, t: System)
    decreases |steps|
  {
    if !s.mode.Busy? then steps == [] && s == t
    else if steps == [] then script == [] && s == t
    else
      && Enabled(s, steps[0])
      && match steps[0]
         case Hears(at) =>
           && script != [] && script[0].frames != []
           && script[0].frames[0] == Timed(PriSees(s.addr, s.s2p[0]), at)
           && Plays(Apply(s, steps[0]), steps[1..], [Pass(script[0].frames[1..], script[0].now)] + script[1..], t)
         case Ticks(now) =>
           && script != [] && script[0] == Pass([], now)
           && Plays(Apply(s, steps[0]), steps[1..], script[1..], t)
         case Answers(_) | LoseCommand(_) | RepeatCommand(_) | LoseReply(_) | RepeatReply(_) =>
           Plays(Apply(s, steps[0]), steps[1..], script, t)
         case _ => false
  }

  /** All the primary writes along the steps. */
  ghost function WroteAll(s: System, steps: seq<Step>): seq<Sent>
    decreases |steps|
  {
    if steps == [] || !Enabled(s, steps[0]) then []
    else Wrote(s, steps[0]) + WroteAll(Apply(s, steps[0]), steps[1..])
  }

  lemma RunFrame(call: Call, x: Xch, script: seq<Pass>)
    requires x.outcome.Running? && script != [] && script[0].frames != []
    ensures
      var f, rest := script[0].frames[0], [Pass(script[0].frames[1..], script[0].now)] + script[1..];
      var y := OnFrame(call, x, f);
      Run(call, x, script) == if y.outcome.Running? then Run(call, y, rest) else y
  {
    hide OnFrame, AfterBatch;
    var f, rest := script[0].frames[0], [Pass(script[0].frames[1..], script[0].now)] + script[1..];
    var y := OnFrame(call, x, f);
    RunStep(call, x, script);
    assert OnFrames(call, x, script[0].frames) == OnFrames(call, y, script[0].frames[1..]);
    if y.outcome.Running? {
      RunStep(call, y, rest);
      assert rest[1..] == script[1..];
    } else {
      RunStops(call, y, script[1..]);
    }
  }

  lemma RunTick(call: Call, x: Xch, script: seq<Pass>)
    requires x.outcome.Running? && script != [] && script[0].frames == []
    ensures Run(call, x, script) == Run(call, AfterBatch(call, x, script[0].now), script[1..])
  {
    hide AfterBatch;
    RunStep(call, x, script);
  }

  lemma OthersLeave(s: System, step: Step)
    requires Enabled(s, step) && s.mode.Busy? && !step.Hears? && !step.Ticks?
    ensures var t := Apply(s, step); t.mode == s.mode && t.taken == s.taken && Wrote(s, step) == []
  {
    hide OwesAnswer, Hear, Tags;
  }

  lemma EndedRun(call: Call, x: Xch, script: seq<Pass>)
    requires !x.outcome.Running? || script == []
    ensures Run(call, x, script) == x
  {}

  /** What the exchange and the steps have in common at the end. */
  ghost predicate Meets(s: System, call: Call, x: Xch, steps: seq<Step>, t: System, z: Xch)
  {
    && Follows(t, call, z)
    && (exists took :: z.taken == x.taken + took && t.taken == s.taken + took)
    && z.writes == x.writes + WroteAll(s, steps)
  }

  lemma MeetsNext(
    s: System, call: Call, x: Xch, steps: seq<Step>, t: System, z: Xch, u: System, y: Xch, took: seq<bytes>)
    requires steps != [] && Enabled(s, steps[0]) && u == Apply(s, steps[0])
    requires y.taken == x.taken + took && u.taken == s.taken + took && y.writes == x.writes + Wrote(s, steps[0])
    requires Meets(u, call, y, steps[1..], t, z)
    ensures Meets(s, call, x, steps, t, z)
  {
    hide Apply, Enabled, Follows, Wrote;
    var more :| z.taken == y.taken + more && t.taken == u.taken + more;
    assert z.taken == x.taken + (took + more) && t.taken == s.taken + (took + more);
    assert z.writes == x.writes + (Wrote(s, steps[0]) + WroteAll(u, steps[1..]));
  }

  lemma MeetsNow(s: System, call: Call, x: Xch)
    requires Follows(s, call, x)
    ensures Meets(s, call, x, [], s, x)
  {
    assert x.taken == x.taken + [] && s.taken == s.taken + [] && x.writes == x.writes + [];
  }

  /** A whole exchange, over whatever script of reads it comes upon with the other station's steps in between,
      is a run, and ends where `exchange` on that script does: with the same V(S), V(R) and outcome, having taken
      the same payloads and written the same frames. So what is proved of runs is proved of `exchange`. */
  lemma {:induction false} ExchangeIsRun(s: System, call: Call, x: Xch, steps: seq<Step>, script: seq<Pass>, t: System)
    requires Follows(s, call, x) && Plays(s, steps, script, t)
    ensures Runs(s, steps, t) && Meets(s, call, x, steps, t, Run(call, x, script))
    decreases |steps|
  {
    hide Enabled, Apply, PrimaryHears, PrimaryTicks, OnFrame, AfterBatch, PriSees, Heard, Ticked, Wrote, Meets, Run,
         Follows;
    ModeFollows(s, call, x);
    if !s.mode.Busy? || steps == [] {
      EndedRun(call, x, script);
      MeetsNow(s, call, x);
    } else {
      var u := Apply(s, steps[0]);
      var z := Run(call, x, script);
      if steps[0].Hears? {
        var at := steps[0].at;
        HearsIs(s, at);
        HearFollows(s, call, x, at);
        RunFrame(call, x, script);
        var y := OnFrame(call, x, script[0].frames[0]);
        var rest := [Pass(script[0].frames[1..], script[0].now)] + script[1..];
        ExchangeIsRun(u, call, y, steps[1..], rest, t);
        if !y.outcome.Running? { EndedRun(call, y, rest); }
        MeetsNext(s, call, x, steps, t, z, u, y, Heard(s, at).taken);
      } else if steps[0].Ticks? {
        var now := steps[0].now;
        TicksIs(s, now);
        TickFollows(s, call, x, now);
        RunTick(call, x, script);
        var y := AfterBatch(call, x, now);
        ExchangeIsRun(u, call, y, steps[1..], script[1..], t);
        MeetsNext(s, call, x, steps, t, z, u, y, Ticked(s, now).taken);
      } else {
        OthersLeave(s, steps[0]);
        FollowsMode(s, u, call, x);
        ExchangeIsRun(u, call, x, steps[1..], script, t);
        assert x.taken == x.taken + [] && u.taken == s.taken + [] && x.writes == x.writes + [];
        MeetsNext(s, call, x, steps, t, z, u, x, []);
      }
    }
  }

  lemma ModeFollows(s: System, call: Call, x: Xch)
    requires Follows(s, call, x)
    ensures s.mode.Busy? <==> x.outcome.Running?
  {}

  lemma FollowsMode(s: System, t: System, call: Call, x: Xch)
    requires Follows(s, call, x) && s.mode == t.mode
    ensures Follows(t, call, x)
  {}

  lemma HearsIs(s: System, at: int)
    requires Enabled(s, Hears(at))
    ensures Apply(s, Hears(at)) == PrimaryHears(s, at) && Wrote(s, Hears(at)) == Heard(s, at).writes && s.s2p != []
  {
    hide Heard, PrimaryHears;
  }

  lemma TicksIs(s: System, now: int)
    requires Enabled(s, Ticks(now))
    ensures Apply(s, Ticks(now)) == PrimaryTicks(s, now) && Wrote(s, Ticks(now)) == Ticked(s, now).writes
  {
    hide Ticked, PrimaryTicks;
  }

  /** From the first frame on: beginning an exchange and playing it out is a run, whatever the link's statistics
      were, and it writes what `exchange` writes. */
  lemma WholeExchange(s: System, call: Call, stats: Stats, now: int, steps: seq<Step>, script: seq<Pass>, t: System)
    requires Enabled(s, Start(call, now)) && Plays(BeginExchange(s, call, now), steps, script, t)
    ensures
      var z := Run(call, Begin(call, s.mode.vs, s.mode.vr, true, stats, now), script);
      && Runs(s, [Start(call, now)] + steps, t) && Follows(t, call, z)
      && t.taken == s.taken + z.taken && z.writes == WroteAll(s, [Start(call, now)] + steps)
  {
    hide Plays, Run, OwesAnswer, Tags;
    var u := BeginExchange(s, call, now);
    var x := Begin(call, s.mode.vs, s.mode.vr, true, stats, now);
    ExchangeIsRun(u, call, x, steps, script, t);
    assert ([Start(call, now)] + steps)[1..] == steps;
    var z := Run(call, x, script);
    var took :| z.taken == x.taken + took && t.taken == u.taken + took;
    assert z.taken == took;
  }
}
