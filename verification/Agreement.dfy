/** What every run of the joined stations keeps: the modulo-eight stations do what stations with
    unbounded counters would do, so commands are accepted once and in order, and so are reports. */
module Agreement {
  import opened Bits
  import opened Framing
  import opened Control
  import opened Link
  import opened Secondary
  import opened Wrappers
  import opened Lockstep

  // ----- the invariant -----

  ghost predicate StationCounts(s: System)
  {
    && s.addr != BROADCAST && s.sec.addr == s.addr && s.sec.connected
    && s.sec.vr == |s.accepted| % 8 && s.sec.vs == |s.stream| % 8
    && (s.sec.out.Some? ==> s.stream != [] && s.sec.out.value == s.stream[|s.stream| - 1])
  }

  /** The counts of both stations. The secondary may be ahead of V(R) by one I-frame it has let go of too
      early, and only when a request was written again at the wrong moment. */
  ghost predicate Counts(s: System)
  {
    && StationCounts(s)
    && |s.responses| == |s.accepted|
    && (!s.doubt ==> s.accepted <= s.issued && |s.issued| <= |s.accepted| + 1)
    && s.base <= s.pos <= |s.stream| && Released(s) <= s.pos + 1
    && (Released(s) == s.pos + 1 ==> s.base == s.pos || (s.pos - s.base) % 8 == 7)
    && (!s.stale ==> Released(s) <= s.pos && s.taken <= s.stream && |s.taken| == s.pos)
  }

  ghost predicate PrimaryCounts(s: System)
  {
    match s.mode
    case Lost => false
    case Idle(vs, vr) => vr == s.pos % 8 && (!s.doubt ==> s.accepted == s.issued && vs == |s.issued| % 8)
    case Busy(call, x) =>
      && s.issued != [] && s.issued[|s.issued| - 1] == call.message && call.addr == s.addr
      && x.outcome == Running && x.sentNr == s.base % 8 && x.vr == s.pos % 8
      && (!s.doubt ==> Numbered(s, call, x))
  }

  /** V(S) and N(S) as the count of commands has them. */
  ghost predicate Numbered(s: System, call: Call, x: Xch)
  {
    && RefusesReports(call.router)
    && x.sentNs == (|s.issued| - 1) % 8 && x.vs == (if x.acked then |s.issued| else |s.issued| - 1) % 8
    && (x.acked ==> s.accepted == s.issued)
  }

  /** A frame on its way to the secondary. A request carries the N(R) of the present exchange, or of one that
      was over when the present one began; behind an I-frame let go of too early it is seven short or not at all. */
  ghost predicate CommandOk(s: System, e: ToSec)
  {
    match e
    case Snrm => s.accepted == [] && s.stream == [] && s.sec.pending == None
    case Cmd(j, ns, nr, at, message) =>
      && j < |s.issued| && message == s.issued[j] && (!s.doubt ==> |s.accepted| - 1 <= j && ns == j % 8)
      && nr <= at <= s.pos && Released(s) <= at + 1
      && (nr == s.base || at <= s.base)
      && (Released(s) == at + 1 ==> nr == at || (at - nr) % 8 == 7)
      && (!s.stale ==> (at - nr) % 8 != 7 && Released(s) <= at)
    case Ack(nr, _) => nr <= s.pos && Released(s) <= nr + 1 && (!s.stale ==> Released(s) <= nr)
  }

  /** The count behind V(R) when the frame was written. */
  function At(e: ToSec): nat
  {
    match e
    case Snrm => 0
    case Cmd(_, _, _, at, _) => at
    case Ack(nr, _) => nr
  }

  predicate Before(e: ToSec, f: ToSec)
  {
    && (f.Snrm? ==> e.Snrm?)
    && At(e) <= At(f)
    && (e.Cmd? && f.Cmd? ==> e.j <= f.j && (f.nr == e.nr || e.at <= f.nr))
  }

  /** The least N(R) a reply still on the line may carry. */
  function Low(s: System): int
  {
    match s.mode
    case Busy(_, x) => if x.acked then |s.issued| else |s.issued| - 1
    case _ => |s.issued|
  }

  ghost predicate ReplyOk(s: System, e: ToPri)
  {
    match e
    case Ua => true
    case Info(m, nr, payload) =>
      && s.pos - 1 <= m < |s.stream| && payload == s.stream[m]
      && nr <= |s.accepted| && (!s.doubt ==> Low(s) <= nr)
    case Sup(kind, nr) => kind in {Kind.Rr, Rnr, Rej, Srej} && nr <= |s.accepted| && (!s.doubt ==> Low(s) <= nr)
  }

  predicate ReplyBefore(e: ToPri, f: ToPri)
  {
    && (!e.Ua? && !f.Ua? ==> e.nr <= f.nr)
    && (e.Info? && f.Info? ==> e.m <= f.m)
  }

  ghost predicate Commands(s: System)
  {
    && (forall i | 0 <= i < |s.p2s| :: CommandOk(s, s.p2s[i]))
    && (forall i, k | 0 <= i <= k < |s.p2s| :: Before(s.p2s[i], s.p2s[k]))
  }

  ghost predicate Replies(s: System)
  {
    && (forall i | 0 <= i < |s.s2p| :: ReplyOk(s, s.s2p[i]))
    && (forall i, k | 0 <= i <= k < |s.s2p| :: ReplyBefore(s.s2p[i], s.s2p[k]))
  }

  /** The response to the last command accepted. */
  predicate IsLatest(s: System, payload: bytes)
  {
    s.responses != [] && payload == s.responses[|s.responses| - 1]
  }

  ghost predicate OnlyLatest(s: System, router: Router)
  {
    && (s.sec.pending.Some? && router(s.sec.pending.value) == Accept ==> IsLatest(s, s.sec.pending.value))
    && (forall i | s.pos <= i < |s.stream| && router(s.stream[i]) == Accept :: IsLatest(s, s.stream[i]))
  }

  /** A payload the present call would take for its answer is the answer to the present command. */
  ghost predicate AnswersAreNew(s: System)
    requires s.mode.Busy?
  {
    && (MayAnswer(s, s.mode.call.router) ==> s.accepted == s.issued) && OnlyLatest(s, s.mode.call.router)
    && (forall i | 0 <= i < |s.s2p| :: AnswerIsNew(s, s.s2p[i]))
  }

  /** In an exchange, with the count of commands not in doubt. */
  predicate Trusting(s: System)
  {
    s.mode.Busy? && !s.doubt
  }

  ghost predicate Owed(s: System)
  {
    Trusting(s) && CanDeliver(s) ==> AnswersAreNew(s)
  }

  ghost predicate AnswerIsNew(s: System, e: ToPri)
    requires s.mode.Busy?
  {
    e.Info? && e.m >= s.pos && s.mode.call.router(e.payload) == Accept ==> e.nr == |s.issued|
  }

  ghost predicate Sound(s: System)
  {
    Counts(s) && PrimaryCounts(s) && Commands(s) && Replies(s)
  }

  ghost predicate Inv(s: System)
  {
    Sound(s) && Owed(s)
  }

  lemma InvInit(s: System)
    requires Connected(s)
    ensures Inv(s)
  {}

  // ----- losing and repeating frames -----

  ghost predicate InOrder<T(!new)>(x: T, y: T, line: seq<T>)
  {
    exists i, k | 0 <= i <= k < |line| :: line[i] == x && line[k] == y
  }

  /** Every frame of `line` was on the other line, and in no other order. */
  ghost predicate Drawn<T(!new)>(line: seq<T>, from: seq<T>)
  {
    forall i, k | 0 <= i <= k < |line| :: InOrder(line[i], line[k], from)
  }

  lemma LossDraws<T(!new)>(line: seq<T>, i: nat)
    requires i < |line|
    ensures Drawn(Without(line, i), line)
  {
    var out := Without(line, i);
    forall a, b | 0 <= a <= b < |out| ensures InOrder(out[a], out[b], line) {
      var a', b' := if a < i then a else a + 1, if b < i then b else b + 1;
      assert line[a'] == out[a] && line[b'] == out[b];
    }
  }

  lemma RepetitionDraws<T(!new)>(line: seq<T>, i: nat)
    requires i < |line|
    ensures Drawn(Doubled(line, i), line)
  {
    var out := Doubled(line, i);
    forall a, b | 0 <= a <= b < |out| ensures InOrder(out[a], out[b], line) {
      var a', b' := if a <= i then a else a - 1, if b <= i then b else b - 1;
      assert line[a'] == out[a] && line[b'] == out[b];
    }
  }

  lemma RestDraws<T(!new)>(line: seq<T>)
    requires line != []
    ensures Drawn(line[1..], line)
  {
    forall a, b | 0 <= a <= b < |line| - 1 ensures InOrder(line[1..][a], line[1..][b], line) {
      assert line[a + 1] == line[1..][a] && line[b + 1] == line[1..][b];
    }
  }

  lemma DrawnCommands(s: System, line: seq<ToSec>)
    requires Commands(s) && Drawn(line, s.p2s)
    ensures Commands(s.(p2s := line))
  {
    hide Before;
    var t := s.(p2s := line);
    forall i | 0 <= i < |line| ensures CommandOk(t, line[i]) {
      assert InOrder(line[i], line[i], s.p2s);
      assert CommandOk(s, line[i]);
    }
    forall i, k | 0 <= i <= k < |line| ensures Before(line[i], line[k]) {
      assert InOrder(line[i], line[k], s.p2s);
    }
  }

  lemma DrawnReplies(s: System, line: seq<ToPri>)
    requires Replies(s) && Owed(s) && Drawn(line, s.s2p)
    ensures Replies(s.(s2p := line)) && Owed(s.(s2p := line))
  {
    hide ReplyBefore;
    var t := s.(s2p := line);
    forall i | 0 <= i < |line|
      ensures ReplyOk(t, line[i]) && (Trusting(s) && CanDeliver(s) ==> AnswerIsNew(t, line[i]))
    {
      assert InOrder(line[i], line[i], s.s2p);
      assert ReplyOk(s, line[i]) && (Trusting(s) && CanDeliver(s) ==> AnswerIsNew(s, line[i]));
    }
    forall i, k | 0 <= i <= k < |line| ensures ReplyBefore(line[i], line[k]) {
      assert InOrder(line[i], line[k], s.s2p);
    }
  }

  /** The command line looks at the replies' one nowhere, and the other way round. */
  lemma CommandsApart(s: System, line: seq<ToPri>)
    requires Commands(s)
    ensures Commands(s.(s2p := line))
  {
    hide Before;
    forall i | 0 <= i < |s.p2s| ensures CommandOk(s.(s2p := line), s.p2s[i]) { assert CommandOk(s, s.p2s[i]); }
  }

  lemma RepliesApart(s: System, line: seq<ToSec>)
    requires Replies(s) && Owed(s)
    ensures Replies(s.(p2s := line)) && Owed(s.(p2s := line))
  {
    hide ReplyBefore;
    var t := s.(p2s := line);
    forall i | 0 <= i < |s.s2p|
      ensures ReplyOk(t, s.s2p[i]) && (Trusting(s) && CanDeliver(s) ==> AnswerIsNew(t, s.s2p[i]))
    {
      assert ReplyOk(s, s.s2p[i]) && (Trusting(s) && CanDeliver(s) ==> AnswerIsNew(s, s.s2p[i]));
    }
  }

  lemma KeepsUnderLoss(s: System, step: Step)
    requires Inv(s) && Enabled(s, step)
    requires step.LoseCommand? || step.RepeatCommand? || step.LoseReply? || step.RepeatReply?
    ensures Inv(Apply(s, step))
  {
    hide Commands, Replies, Owed, Drawn, Without, Doubled, BeginExchange, PrimaryHears, PrimaryTicks, IdleHears,
         SecondaryHears;
    var t := Apply(s, step);
    match step
    case LoseCommand(i) => LossDraws(s.p2s, i); DrawnCommands(s, t.p2s); RepliesApart(s, t.p2s);
    case RepeatCommand(i) => RepetitionDraws(s.p2s, i); DrawnCommands(s, t.p2s); RepliesApart(s, t.p2s);
    case LoseReply(i) => LossDraws(s.s2p, i); DrawnReplies(s, t.s2p); CommandsApart(s, t.s2p);
    case RepeatReply(i) => RepetitionDraws(s.s2p, i); DrawnReplies(s, t.s2p); CommandsApart(s, t.s2p);
    case _ =>
  }

  // ----- the secondary's turn -----

  lemma Residues(x: int, y: int)
    requires -8 < x - y < 8 && x % 8 == y % 8
    ensures x == y
  {}

  /** Sending a new I-frame, counted without bound. */
  function Send(s: System, payload: bytes): System
  {
    s.(sec := s.sec.(vs := Next(s.sec.vs), out := Some(payload)),
       stream := s.stream + [payload],
       s2p := s.s2p + [Info(|s.stream|, |s.accepted|, payload)])
  }

  function Answered(s: System, c: Choice): System
  {
    if s.sec.out.Some? then
      s.(s2p := s.s2p + [Info(if s.stream == [] then 0 else |s.stream| - 1, |s.accepted|, s.sec.out.value)])
    else if c.report.Some? then Send(s, c.report.value)
    else if s.sec.pending.Some? && !c.busy then Send(s.(sec := s.sec.(pending := None)), s.sec.pending.value)
    else s.(s2p := s.s2p + [Sup(c.kind, |s.accepted|)])
  }

  /** N(R) is read modulo eight. */
  function FreedBy(s: System, nr: nat): System
  {
    if nr % 8 == |s.stream| % 8 then s.(sec := s.sec.(out := None)) else s
  }

  function Accepted(s: System, message: bytes, response: bytes): System
  {
    s.(accepted := s.accepted + [message], responses := s.responses + [response],
       sec := s.sec.(vr := Next(s.sec.vr), pending := Some(response)))
  }

  /** The secondary's turn as a station would take it that numbered frames without wrapping around. */
  function CountedHears(s: System, c: Choice): System
    requires s.p2s != []
  {
    var t := s.(p2s := s.p2s[1..]);
    match s.p2s[0]
    case Snrm => t.(s2p := t.s2p + [Ua])
    case Ack(nr, poll) =>
      var u := FreedBy(t, nr);
      if poll then Answered(u, c) else u
    case Cmd(_, ns, nr, _, message) =>
      var u := FreedBy(t, nr);
      if ns == |s.accepted| % 8 then Answered(Accepted(u, message, c.response), c)
      else u.(s2p := u.s2p + [Sup(c.kind, |s.accepted|)])
  }

  lemma Acknowledges(s: System, nr: nat)
    requires StationCounts(s)
    ensures Acknowledged(s.sec, nr % 8) == FreedBy(s, nr).sec
  {}

  /** Whose N(R) it is. */
  function Nr(e: ToSec): nat
  {
    match e
    case Snrm => 0
    case Cmd(_, _, nr, _, _) => nr
    case Ack(nr, _) => nr
  }

  /** Whatever N(R) makes the secondary let go of its I-frame was written when V(R) had passed that frame,
      or seven short of it in a request written again. */
  lemma WhoFrees(s: System, e: ToSec)
    requires Counts(s) && CommandOk(s, e) && !e.Snrm? && s.sec.out.Some? && Nr(e) % 8 == |s.stream| % 8
    ensures At(e) >= |s.stream| || (At(e) == |s.stream| - 1 && e.Cmd? && (e.at - e.nr) % 8 == 7)
  {}

  lemma TagOfReply(f: Frame, sent: nat, accepted: nat)
    requires KindOf(f.ctrl) != U
    ensures ReplyTags([f], sent, accepted)
         == [if KindOf(f.ctrl) == I then Info(if sent == 0 then 0 else sent - 1, accepted, f.payload)
             else Sup(KindOf(f.ctrl), accepted)]
  {
    hide KindOf;
    assert [f][1..] == [];
  }

  lemma ReplyByCount(s: System, c: Choice)
    requires StationCounts(s) && c.kind in {Kind.Rr, Rnr, Rej, Srej}
    ensures
      var (sec, f) := Reply(s.sec, c);
      var t := Answered(s, c);
      && t == s.(sec := sec, stream := if sec.vs != s.sec.vs then s.stream + [f.payload] else s.stream,
                 s2p := s.s2p + ReplyTags([f], |t.stream|, |s.accepted|))
      && sec.vr == s.sec.vr
  {
    hide KindOf, IControl, SControl, NsOf, NrOf, HasPf, ReplyTags;
    var (sec, f) := Reply(s.sec, c);
    IControlRoundTrip(s.sec.vs, s.sec.vr);
    IControlRoundTrip((s.sec.vs + 7) % 8, s.sec.vr);
    SControlRoundTrip(c.kind, s.sec.vr, true);
    TagOfReply(f, |Answered(s, c).stream|, |s.accepted|);
  }

  lemma NoReplyNoTag(sent: nat, accepted: nat)
    ensures ReplyTags([], sent, accepted) == []
  {}

  lemma HeardSnrm(s: System, c: Choice)
    requires Counts(s) && s.p2s != [] && CommandOk(s, s.p2s[0]) && s.p2s[0].Snrm?
    ensures SecondaryHears(s, c) == CountedHears(s, c)
  {
    hide Reply, KindOf, WithoutPf;
    UFramesAreUnnumbered(SNRM);
    UFramesAreUnnumbered(UA);
    var ua := Frame(s.addr, UA + PF, []);
    assert [ua][1..] == [];
    assert ReplyTags([ua], 0, 0) == [Ua];
  }

  lemma FreedIs(s: System, line: seq<ToSec>, nr: nat)
    ensures FreedBy(s.(p2s := line), nr) == s.(p2s := line, sec := FreedBy(s, nr).sec)
    ensures StationCounts(s) ==> StationCounts(FreedBy(s.(p2s := line), nr))
    ensures var sec := FreedBy(s, nr).sec; sec.vs == s.sec.vs && sec.vr == s.sec.vr
  {}

  lemma HeardAck(s: System, c: Choice)
    requires StationCounts(s) && s.p2s != [] && s.p2s[0].Ack? && c.kind in {Kind.Rr, Rnr, Rej, Srej}
    ensures SecondaryHears(s, c) == CountedHears(s, c)
  {
    hide Reply, KindOf, WithoutPf, NrOf, NsOf, HasPf, SControl, Answered, ReplyTags, Acknowledged, FreedBy;
    var Ack(nr, poll) := s.p2s[0];
    SControlRoundTrip(Kind.Rr, nr % 8, poll);
    Acknowledges(s, nr);
    var u := FreedBy(s.(p2s := s.p2s[1..]), nr);
    FreedIs(s, s.p2s[1..], nr);
    if poll {
      ReplyByCount(u, c);
    } else {
      NoReplyNoTag(|s.stream|, |s.accepted|);
    }
  }

  lemma CommandMet(s: System, c: Choice)
    requires StationCounts(s) && s.p2s != [] && s.p2s[0].Cmd?
    ensures
      var Cmd(_, ns, nr, _, message) := s.p2s[0];
      var u := FreedBy(s, nr);
      Hear(s.sec, SecSees(s.addr, s.p2s[0]), c)
      == if ns == s.sec.vr then
           var (sec, reply) := Reply(Accepted(u, message, c.response).sec, c); (sec, [reply])
         else (u.sec, [Frame(s.addr, SControl(c.kind, s.sec.vr, true), [])])
  {
    hide Reply, KindOf, WithoutPf, NrOf, NsOf, HasPf, SControl, IControl, Acknowledged;
    var Cmd(_, ns, nr, _, message) := s.p2s[0];
    IControlRoundTrip(ns, nr % 8);
    Acknowledges(s, nr);
  }

  lemma ReplyKeepsVr(s: Station, c: Choice)
    ensures Reply(s, c).0.vr == s.vr
  {}

  /** Freeing and accepting touch the station and the count of what was accepted, whatever is on the line. */
  lemma AcceptedIs(s: System, line: seq<ToSec>, nr: nat, message: bytes, response: bytes)
    ensures
      var sec := Accepted(FreedBy(s, nr), message, response).sec;
      && Accepted(FreedBy(s.(p2s := line), nr), message, response)
         == s.(p2s := line, accepted := s.accepted + [message], responses := s.responses + [response], sec := sec)
      && sec.vs == s.sec.vs && sec.vr == Next(s.sec.vr)
  {}

  lemma AcceptedStation(s: System, line: seq<ToSec>, nr: nat, message: bytes, response: bytes)
    requires StationCounts(s)
    ensures StationCounts(Accepted(FreedBy(s.(p2s := line), nr), message, response))
  {}

  lemma HeardExpected(s: System, c: Choice)
    requires StationCounts(s) && s.p2s != [] && s.p2s[0].Cmd? && c.kind in {Kind.Rr, Rnr, Rej, Srej}
    requires s.p2s[0].ns == s.sec.vr
    ensures SecondaryHears(s, c) == CountedHears(s, c)
  {
    hide Hear, Reply, KindOf, NrOf, NsOf, HasPf, SControl, IControl, Answered, ReplyTags, FreedBy, Accepted, Next;
    var Cmd(_, ns, nr, _, message) := s.p2s[0];
    var tail := s.p2s[1..];
    CommandMet(s, c);
    IControlRoundTrip(ns, nr % 8);
    AcceptedIs(s, tail, nr, message, c.response);
    AcceptedStation(s, tail, nr, message, c.response);
    var u := Accepted(FreedBy(s.(p2s := tail), nr), message, c.response);
    ReplyByCount(u, c);
    ReplyKeepsVr(u.sec, c);
    NextDiffers(s.sec.vr);
  }

  lemma NextDiffers(n: seqno)
    ensures Next(n) != n
  {}

  lemma HeardUnexpected(s: System, c: Choice)
    requires StationCounts(s) && s.p2s != [] && s.p2s[0].Cmd? && c.kind in {Kind.Rr, Rnr, Rej, Srej}
    requires s.p2s[0].ns != s.sec.vr
    ensures SecondaryHears(s, c) == CountedHears(s, c)
  {
    hide Hear, Reply, KindOf, NrOf, NsOf, HasPf, SControl, IControl, Answered, ReplyTags;
    var Cmd(_, ns, nr, _, message) := s.p2s[0];
    CommandMet(s, c);
    IControlRoundTrip(ns, nr % 8);
    SControlRoundTrip(c.kind, s.sec.vr, true);
    TagOfReply(Frame(s.addr, SControl(c.kind, s.sec.vr, true), []), |s.stream|, |s.accepted|);
  }

  lemma HeardCommand(s: System, c: Choice)
    requires StationCounts(s) && s.p2s != [] && s.p2s[0].Cmd? && c.kind in {Kind.Rr, Rnr, Rej, Srej}
    ensures SecondaryHears(s, c) == CountedHears(s, c)
  {
    hide StationCounts, SecondaryHears, CountedHears;
    if s.p2s[0].ns == s.sec.vr { HeardExpected(s, c); } else { HeardUnexpected(s, c); }
  }

  /** N(S) is the one expected exactly when the command is the next one. */
  lemma ExpectedByCount(s: System, e: ToSec)
    requires Counts(s) && !s.doubt && e.Cmd? && CommandOk(s, e)
    ensures e.ns == |s.accepted| % 8 <==> e.j == |s.accepted|
  {
    if e.j % 8 == |s.accepted| % 8 {
      Residues(e.j, |s.accepted|);
    }
  }

  /** With the count of commands not in doubt, the secondary accepts the command it has not had, */
  lemma HeardNextCommand(s: System, c: Choice)
    requires Counts(s) && !s.doubt && s.p2s != [] && s.p2s[0].Cmd? && CommandOk(s, s.p2s[0])
    requires c.kind in {Kind.Rr, Rnr, Rej, Srej} && s.p2s[0].j == |s.accepted|
    ensures var Cmd(_, _, nr, _, message) := s.p2s[0];
      SecondaryHears(s, c) == Answered(Accepted(FreedBy(s.(p2s := s.p2s[1..]), nr), message, c.response), c)
  {
    hide SecondaryHears, Answered, Accepted, FreedBy, Released;
    HeardCommand(s, c);
    ExpectedByCount(s, s.p2s[0]);
  }

  /** and refuses any it has. */
  lemma HeardOldCommand(s: System, c: Choice)
    requires Counts(s) && !s.doubt && s.p2s != [] && s.p2s[0].Cmd? && CommandOk(s, s.p2s[0])
    requires c.kind in {Kind.Rr, Rnr, Rej, Srej} && s.p2s[0].j != |s.accepted|
    ensures var u := FreedBy(s.(p2s := s.p2s[1..]), s.p2s[0].nr);
      SecondaryHears(s, c) == u.(s2p := u.s2p + [Sup(c.kind, |s.accepted|)])
  {
    hide SecondaryHears, Answered, Accepted, FreedBy, Released;
    HeardCommand(s, c);
    ExpectedByCount(s, s.p2s[0]);
  }

  ghost predicate NoSnrm(s: System)
  {
    forall i | 0 <= i < |s.p2s| :: !s.p2s[i].Snrm?
  }

  /** Every frame still to arrive was written after `e`. */
  ghost predicate AllAfter(s: System, e: ToSec)
  {
    forall i | 0 <= i < |s.p2s| :: Before(e, s.p2s[i])
  }

  lemma FreedCounts(s: System, e: ToSec)
    requires Counts(s) && CommandOk(s, e) && !e.Snrm?
    ensures Counts(FreedBy(s, Nr(e)))
    ensures Released(s) <= Released(FreedBy(s, Nr(e)))
  {
    if s.sec.out.Some? && Nr(e) % 8 == |s.stream| % 8 {
      WhoFrees(s, e);
    }
  }

  lemma FreedCommands(s: System, e: ToSec)
    requires Counts(s) && Commands(s) && CommandOk(s, e) && !e.Snrm? && AllAfter(s, e)
    ensures Commands(FreedBy(s, Nr(e)))
  {
    var t := FreedBy(s, Nr(e));
    if s.sec.out.Some? && Nr(e) % 8 == |s.stream| % 8 {
      WhoFrees(s, e);
      forall i | 0 <= i < |s.p2s| ensures CommandOk(t, s.p2s[i]) {
        assert CommandOk(s, s.p2s[i]) && Before(e, s.p2s[i]);
      }
    } else {
      assert Released(t) == Released(s);
      forall i | 0 <= i < |s.p2s| ensures CommandOk(t, s.p2s[i]) {
        assert CommandOk(s, s.p2s[i]);
      }
    }
  }

  /** What a step of the secondary does to the replies under way and to what is owed, when it adds nothing. */
  lemma FreedReplies(s: System, nr: nat)
    requires Replies(s) && Owed(s) && Released(s) <= Released(FreedBy(s, nr))
    ensures Replies(FreedBy(s, nr)) && Owed(FreedBy(s, nr))
  {
    hide ReplyBefore;
    var t := FreedBy(s, nr);
    forall i | 0 <= i < |s.s2p|
      ensures ReplyOk(t, s.s2p[i]) && (Trusting(s) && CanDeliver(s) ==> AnswerIsNew(t, s.s2p[i]))
    {
      assert ReplyOk(s, s.s2p[i]) && (Trusting(s) && CanDeliver(s) ==> AnswerIsNew(s, s.s2p[i]));
    }
  }

  lemma FreedKeeps(s: System, e: ToSec)
    requires Inv(s) && CommandOk(s, e) && !e.Snrm? && AllAfter(s, e)
    ensures Inv(FreedBy(s, Nr(e)))
  {
    hide Commands, Replies, Owed, CommandOk, Counts, Released;
    FreedCounts(s, e);
    FreedCommands(s, e);
    FreedReplies(s, Nr(e));
  }

  lemma AcceptedCommands(s: System, message: bytes, response: bytes)
    requires Commands(s) && NoSnrm(s)
    requires !s.doubt ==> forall i | 0 <= i < |s.p2s| :: s.p2s[i].Cmd? ==> |s.accepted| <= s.p2s[i].j
    ensures Commands(Accepted(s, message, response))
  {
    hide Before;
    forall i | 0 <= i < |s.p2s| ensures CommandOk(Accepted(s, message, response), s.p2s[i]) {
      assert CommandOk(s, s.p2s[i]);
    }
  }

  lemma AcceptedLatest(s: System, message: bytes, response: bytes)
    requires s.mode.Busy? && !MayAnswer(s, s.mode.call.router)
    ensures OnlyLatest(Accepted(s, message, response), s.mode.call.router)
  {}

  lemma AcceptedReplies(s: System, message: bytes, response: bytes)
    requires Replies(s) && Owed(s) && (!s.doubt ==> Accepted(s, message, response).accepted == s.issued)
    ensures Replies(Accepted(s, message, response)) && Owed(Accepted(s, message, response))
  {
    hide ReplyBefore, MayAnswer, OnlyLatest;
    var t := Accepted(s, message, response);
    if Trusting(s) && CanDeliver(s) { AcceptedLatest(s, message, response); }
    forall i | 0 <= i < |s.s2p|
      ensures ReplyOk(t, s.s2p[i]) && (Trusting(s) && CanDeliver(s) ==> AnswerIsNew(t, s.s2p[i]))
    {
      assert ReplyOk(s, s.s2p[i]) && (Trusting(s) && CanDeliver(s) ==> AnswerIsNew(s, s.s2p[i]));
    }
  }

  /** The next command goes in; the ones behind it are no older. */
  lemma AcceptKeeps(s: System, message: bytes, response: bytes)
    requires Inv(s) && NoSnrm(s)
    requires !s.doubt ==> |s.accepted| < |s.issued| && message == s.issued[|s.accepted|]
    requires !s.doubt ==> forall i | 0 <= i < |s.p2s| :: s.p2s[i].Cmd? ==> |s.accepted| <= s.p2s[i].j
    ensures Inv(Accepted(s, message, response))
    ensures !s.doubt ==> Accepted(s, message, response).accepted == s.issued
  {
    hide Commands, Replies, Owed;
    assert !s.doubt ==> Accepted(s, message, response).accepted == s.issued;
    AcceptedCommands(s, message, response);
    AcceptedReplies(s, message, response);
  }

  lemma ReplyJoins(s: System, e: ToPri)
    requires Inv(s) && ReplyOk(s, e) && (Trusting(s) && CanDeliver(s) ==> AnswerIsNew(s, e))
    requires e.Info? && e.m == s.pos ==> CanDeliver(s)
    requires forall i | 0 <= i < |s.s2p| :: ReplyBefore(s.s2p[i], e)
    ensures Inv(s.(s2p := s.s2p + [e]))
  {
    hide ReplyBefore, MayAnswer, Commands, Counts, PrimaryCounts;
    var t := s.(s2p := s.s2p + [e]);
    CommandsApart(s, t.s2p);
    CountsApart(s, t.s2p);
    assert ReplyBefore(e, e) by { ReplyBeforeItself(e); }
    forall i | 0 <= i < |t.s2p| ensures ReplyOk(t, t.s2p[i]) {
      assert ReplyOk(s, t.s2p[i]);
    }
    if Trusting(s) && CanDeliver(t) {
      DeliversAlready(s, e);
      SameMayAnswer(s, t);
      forall i | 0 <= i < |t.s2p| ensures AnswerIsNew(t, t.s2p[i]) { assert AnswerIsNew(s, t.s2p[i]); }
    }
  }

  lemma DeliversAlready(s: System, e: ToPri)
    requires CanDeliver(s.(s2p := s.s2p + [e])) && (e.Info? && e.m == s.pos ==> CanDeliver(s))
    ensures CanDeliver(s)
  {
    var t := s.(s2p := s.s2p + [e]);
    if !(Released(s) <= s.pos) {
      var i :| 0 <= i < |t.s2p| && t.s2p[i].Info? && t.s2p[i].m == t.pos;
      if i < |s.s2p| { assert s.s2p[i] == t.s2p[i]; }
    }
  }

  lemma SameMayAnswer(s: System, t: System)
    requires s.mode.Busy? && t.mode.Busy? && t.mode.call == s.mode.call
    requires t.sec.pending == s.sec.pending && t.stream == s.stream && t.pos == s.pos && t.responses == s.responses
    ensures MayAnswer(t, t.mode.call.router) <==> MayAnswer(s, s.mode.call.router)
    ensures OnlyLatest(t, t.mode.call.router) <==> OnlyLatest(s, s.mode.call.router)
  {}

  lemma CountsApart(s: System, line: seq<ToPri>)
    requires Counts(s) && PrimaryCounts(s)
    ensures Counts(s.(s2p := line)) && PrimaryCounts(s.(s2p := line))
  {}

  lemma ReplyBeforeItself(e: ToPri)
    ensures ReplyBefore(e, e)
  {}

  lemma SupervisoryJoins(s: System, kind: Kind)
    requires Inv(s) && kind in {Kind.Rr, Rnr, Rej, Srej}
    ensures Inv(s.(s2p := s.s2p + [Sup(kind, |s.accepted|)]))
  {
    forall i | 0 <= i < |s.s2p| ensures ReplyBefore(s.s2p[i], Sup(kind, |s.accepted|)) {
      assert ReplyOk(s, s.s2p[i]);
    }
    ReplyJoins(s, Sup(kind, |s.accepted|));
  }

  /** The I-frame last sent goes out once more. */
  lemma LastJoins(s: System)
    requires Inv(s) && s.sec.out.Some?
    ensures Inv(s.(s2p := s.s2p + [Info(|s.stream| - 1, |s.accepted|, s.sec.out.value)]))
  {
    var e := Info(|s.stream| - 1, |s.accepted|, s.sec.out.value);
    forall i | 0 <= i < |s.s2p| ensures ReplyBefore(s.s2p[i], e) {
      assert ReplyOk(s, s.s2p[i]);
    }
    ReplyJoins(s, e);
  }

  /** The secondary begins a new I-frame. */
  function Begun(s: System, payload: bytes): System
  {
    s.(sec := s.sec.(vs := Next(s.sec.vs), out := Some(payload)), stream := s.stream + [payload])
  }

  lemma BegunCommands(s: System, payload: bytes)
    requires Commands(s) && NoSnrm(s) && s.sec.out.None?
    ensures Commands(Begun(s, payload))
  {
    hide Before;
    forall i | 0 <= i < |s.p2s| ensures CommandOk(Begun(s, payload), s.p2s[i]) {
      assert CommandOk(s, s.p2s[i]);
    }
  }

  lemma BegunReplies(s: System, payload: bytes)
    requires Replies(s) && Owed(s) && s.sec.out.None?
    requires Trusting(s) && CanDeliver(s) && s.mode.call.router(payload) == Accept ==>
               s.accepted == s.issued && IsLatest(s, payload)
    ensures Replies(Begun(s, payload)) && Owed(Begun(s, payload))
  {
    hide ReplyBefore;
    var t := Begun(s, payload);
    forall i | 0 <= i < |s.s2p|
      ensures ReplyOk(t, s.s2p[i]) && (Trusting(s) && CanDeliver(s) ==> AnswerIsNew(t, s.s2p[i]))
    {
      assert ReplyOk(s, s.s2p[i]) && (Trusting(s) && CanDeliver(s) ==> AnswerIsNew(s, s.s2p[i]));
    }
    if Trusting(s) && CanDeliver(t) && MayAnswer(t, t.mode.call.router) {
      if s.sec.pending.Some? && s.mode.call.router(s.sec.pending.value) == Accept {
        assert MayAnswer(s, s.mode.call.router);
      } else {
        var i :| t.pos <= i < |t.stream| && t.mode.call.router(t.stream[i]) == Accept;
        assert i < |s.stream| ==> t.stream[i] == s.stream[i];
      }
    }
  }

  lemma StreamGrows(s: System, payload: bytes)
    requires Inv(s) && NoSnrm(s) && s.sec.out.None?
    requires Trusting(s) && CanDeliver(s) && s.mode.call.router(payload) == Accept ==>
               s.accepted == s.issued && IsLatest(s, payload)
    ensures Inv(Begun(s, payload))
  {
    hide Commands, Replies, Owed, CanDeliver;
    NextOf(|s.stream|);
    BegunCommands(s, payload);
    BegunReplies(s, payload);
  }

  lemma SendKeeps(s: System, payload: bytes)
    requires Inv(s) && NoSnrm(s) && s.sec.out.None?
    requires Trusting(s) && CanDeliver(s) && s.mode.call.router(payload) == Accept ==>
               s.accepted == s.issued && IsLatest(s, payload)
    ensures Inv(Send(s, payload))
  {
    hide Inv, CanDeliver;
    StreamGrows(s, payload);
    LastJoins(Begun(s, payload));
  }

  /** The response is no longer merely pending. */
  function Unpending(s: System): System
  {
    s.(sec := s.sec.(pending := None))
  }

  lemma NothingPendingKeeps(s: System)
    requires Inv(s)
    ensures Inv(Unpending(s)) && (CanDeliver(Unpending(s)) <==> CanDeliver(s))
  {
    hide Before, ReplyBefore, Owed, Replies;
    var t := Unpending(s);
    UnpendingReplies(s);
    forall i | 0 <= i < |s.p2s| ensures CommandOk(t, s.p2s[i]) {
      assert CommandOk(s, s.p2s[i]);
    }
  }

  lemma UnpendingReplies(s: System)
    requires Replies(s) && Owed(s)
    ensures Replies(Unpending(s)) && Owed(Unpending(s))
  {
    hide ReplyBefore;
    var t := Unpending(s);
    forall i | 0 <= i < |s.s2p|
      ensures ReplyOk(t, s.s2p[i]) && (Trusting(s) && CanDeliver(s) ==> AnswerIsNew(t, s.s2p[i]))
    {
      assert ReplyOk(s, s.s2p[i]) && (Trusting(s) && CanDeliver(s) ==> AnswerIsNew(s, s.s2p[i]));
    }
  }

  lemma AnsweredKeeps(s: System, c: Choice)
    requires Inv(s) && NoSnrm(s)
    requires c.kind in {Kind.Rr, Rnr, Rej, Srej} && (c.report.Some? ==> IsReport(c.report.value))
    ensures Inv(Answered(s, c))
  {
    hide Commands, Replies, Send, CanDeliver;
    if s.sec.out.Some? {
      LastJoins(s);
    } else if c.report.Some? {
      SendKeeps(s, c.report.value);
    } else if s.sec.pending.Some? && !c.busy {
      NothingPendingKeeps(s);
      SendKeeps(Unpending(s), s.sec.pending.value);
    } else {
      SupervisoryJoins(s, c.kind);
    }
  }

  /** What is left of the command line after its head has been taken. */
  lemma HeadTaken(s: System)
    requires Inv(s) && s.p2s != []
    ensures var t := s.(p2s := s.p2s[1..]);
      && Inv(t) && CommandOk(s, s.p2s[0]) && CommandOk(t, s.p2s[0]) && AllAfter(t, s.p2s[0])
      && (!s.p2s[0].Snrm? ==> NoSnrm(t))
      && (s.p2s[0].Cmd? ==> forall i | 0 <= i < |t.p2s| :: t.p2s[i].Cmd? ==> s.p2s[0].j <= t.p2s[i].j)
  {
    hide Replies, Owed;
    RestDraws(s.p2s);
    DrawnCommands(s, s.p2s[1..]);
    RepliesApart(s, s.p2s[1..]);
    forall i | 0 <= i < |s.p2s| - 1 ensures Before(s.p2s[0], s.p2s[1..][i]) {
      assert s.p2s[1..][i] == s.p2s[i + 1];
    }
  }

  lemma KeepsUnderAnswers(s: System, c: Choice)
    requires Inv(s) && Enabled(s, Answers(c))
    ensures Inv(SecondaryHears(s, c))
  {
    hide Commands, Replies, Owed, Before, SecondaryHears, Answered, FreedBy, Accepted;
    HeadTaken(s);
    var t := s.(p2s := s.p2s[1..]);
    match s.p2s[0]
    case Snrm =>
      HeardSnrm(s, c);
      ReplyJoins(t, Ua);
    case Ack(nr, poll) =>
      HeardAck(s, c);
      FreedKeeps(t, s.p2s[0]);
      if poll { FreedLeaves(t, nr); AnsweredKeeps(FreedBy(t, nr), c); }
    case Cmd(j, ns, nr, at, message) =>
      HeardCommand(s, c);
      FreedKeeps(t, s.p2s[0]);
      FreedLeaves(t, nr);
      var u := FreedBy(t, nr);
      if !s.doubt { ExpectedByCount(s, s.p2s[0]); }
      if ns == |s.accepted| % 8 {
        AcceptKeeps(u, message, c.response);
        AcceptedLeaves(u, message, c.response);
        AnsweredKeeps(Accepted(u, message, c.response), c);
      } else {
        SupervisoryJoins(u, c.kind);
      }
  }

  lemma FreedLeaves(s: System, nr: nat)
    ensures FreedBy(s, nr).p2s == s.p2s && FreedBy(s, nr).mode == s.mode
    ensures FreedBy(s, nr).accepted == s.accepted && FreedBy(s, nr).issued == s.issued
    ensures FreedBy(s, nr).doubt == s.doubt
    ensures NoSnrm(s) ==> NoSnrm(FreedBy(s, nr))
  {}

  lemma AcceptedLeaves(s: System, message: bytes, response: bytes)
    ensures var t := Accepted(s, message, response); t.mode == s.mode && (NoSnrm(s) ==> NoSnrm(t))
  {}

  // ----- the primary's turn -----

  lemma CommandJoins(s: System, e: ToSec)
    requires Inv(s) && CommandOk(s, e) && !e.Snrm? && At(e) == s.pos
    requires e.Cmd? ==> e.j == |s.issued| - 1 && e.nr == s.base
    ensures Inv(s.(p2s := s.p2s + [e]))
  {
    hide Replies, Owed, Counts, PrimaryCounts;
    var t := s.(p2s := s.p2s + [e]);
    RepliesApart(s, t.p2s);
    LineUncounted(s, t.p2s);
    forall i | 0 <= i < |t.p2s| ensures CommandOk(t, t.p2s[i]) && Before(t.p2s[i], e) {
      assert CommandOk(s, t.p2s[i]);
    }
    forall i, k | 0 <= i <= k < |t.p2s| ensures Before(t.p2s[i], t.p2s[k]) {
      if k < |s.p2s| { assert t.p2s[i] == s.p2s[i] && t.p2s[k] == s.p2s[k]; }
    }
  }

  lemma LineUncounted(s: System, line: seq<ToSec>)
    requires Counts(s) && PrimaryCounts(s)
    ensures Counts(s.(p2s := line)) && PrimaryCounts(s.(p2s := line))
  {}

  lemma AckJoins(s: System, poll: bool)
    requires Inv(s)
    ensures Inv(s.(p2s := s.p2s + [Ack(s.pos, poll)]))
  {
    CommandJoins(s, Ack(s.pos, poll));
  }

  lemma RequestJoins(s: System)
    requires Inv(s) && s.mode.Busy? && (s.stale || (s.pos - s.base) % 8 != 7)
    ensures Inv(s.(p2s := s.p2s + [Cmd(|s.issued| - 1, s.mode.x.sentNs, s.base, s.pos, s.mode.call.message)]))
  {
    hide Commands, Replies, Owed;
    CommandJoins(s, Cmd(|s.issued| - 1, s.mode.x.sentNs, s.base, s.pos, s.mode.call.message));
  }

  /** From a request written at the wrong moment on, less is claimed. */
  lemma TurnsStale(s: System, stale: bool)
    requires Inv(s) && (s.stale ==> stale)
    ensures Inv(s.(stale := stale))
  {
    hide Before, ReplyBefore, AnswerIsNew, MayAnswer;
    var t := s.(stale := stale);
    forall i | 0 <= i < |s.p2s| ensures CommandOk(t, s.p2s[i]) { assert CommandOk(s, s.p2s[i]); }
    forall i | 0 <= i < |s.s2p| ensures ReplyOk(t, s.s2p[i]) { assert ReplyOk(s, s.s2p[i]); }
    if Trusting(s) && CanDeliver(t) {
      SameMayAnswer(s, t);
      forall i | 0 <= i < |s.s2p| ensures AnswerIsNew(t, s.s2p[i]) {
        assert AnswerIsNew(s, s.s2p[i]);
        SameNew(s, t, s.s2p[i]);
      }
    }
  }

  lemma SameNew(s: System, t: System, e: ToPri)
    requires s.mode.Busy? && t.mode.Busy? && t.mode.call == s.mode.call && t.pos == s.pos && t.issued == s.issued
    ensures AnswerIsNew(t, e) <==> AnswerIsNew(s, e)
  {}

  /** The command line does not depend on where the primary stands. */
  lemma CommandsOfMode(s: System, mode: Mode)
    requires Commands(s)
    ensures Commands(s.(mode := mode))
  {
    hide Before;
    forall i | 0 <= i < |s.p2s| ensures CommandOk(s.(mode := mode), s.p2s[i]) { assert CommandOk(s, s.p2s[i]); }
  }

  /** The parts of an exchange the invariant speaks of whatever has happened, */
  predicate NearCourse(x: Xch, y: Xch)
  {
    x.sentNs == y.sentNs && x.sentNr == y.sentNr && x.vr == y.vr && x.outcome == y.outcome
  }

  /** and with the count of commands not in doubt. */
  predicate SameCourse(x: Xch, y: Xch)
  {
    && x.sentNs == y.sentNs && x.sentNr == y.sentNr && x.vs == y.vs && x.vr == y.vr
    && x.acked == y.acked && x.outcome == y.outcome
  }

  /** What is owed does not depend on how far the exchange has come. */
  lemma OwedOfExchange(s: System, x: Xch)
    requires s.mode.Busy? && Owed(s)
    ensures Owed(s.(mode := s.mode.(x := x)))
    ensures AnswersAreNew(s) ==> AnswersAreNew(s.(mode := s.mode.(x := x)))
  {
    hide AnswerIsNew, MayAnswer;
    var t := s.(mode := s.mode.(x := x));
    SameMayAnswer(s, t);
    forall i | 0 <= i < |s.s2p| ensures AnswerIsNew(t, s.s2p[i]) <==> AnswerIsNew(s, s.s2p[i]) {
      SameNew(s, t, s.s2p[i]);
    }
  }

  lemma CourseKeeps(s: System, x: Xch)
    requires Inv(s) && s.mode.Busy? && NearCourse(x, s.mode.x) && (!s.doubt ==> SameCourse(x, s.mode.x))
    ensures Inv(s.(mode := s.mode.(x := x)))
    ensures AnswersAreNew(s) ==> AnswersAreNew(s.(mode := s.mode.(x := x)))
  {
    hide Commands, ReplyBefore, Owed, AnswersAreNew;
    var t := s.(mode := s.mode.(x := x));
    CommandsOfMode(s, t.mode);
    OwedOfExchange(s, x);
    forall i | 0 <= i < |s.s2p| ensures ReplyOk(t, s.s2p[i]) {
      assert ReplyOk(s, s.s2p[i]);
    }
  }

  /** Every reply still on the line acknowledges the present command. */
  ghost predicate AllAcknowledge(s: System)
  {
    forall i | 0 <= i < |s.s2p| :: !s.s2p[i].Ua? ==> |s.issued| <= s.s2p[i].nr
  }

  function MarkAcked(x: Xch): Xch
  {
    x.(acked := true, vs := Next(x.sentNs))
  }

  lemma AckedKeeps(s: System)
    requires Inv(s) && s.mode.Busy? && (!s.doubt ==> s.accepted == s.issued && AllAcknowledge(s))
    ensures Inv(s.(mode := s.mode.(x := MarkAcked(s.mode.x))))
    ensures AnswersAreNew(s) ==> AnswersAreNew(s.(mode := s.mode.(x := MarkAcked(s.mode.x))))
  {
    hide Commands, ReplyBefore, Next, RetapRouter, Owed, AnswersAreNew;
    NextOf(|s.issued| - 1);
    var t := s.(mode := s.mode.(x := MarkAcked(s.mode.x)));
    CommandsOfMode(s, t.mode);
    OwedOfExchange(s, t.mode.x);
    forall i | 0 <= i < |s.s2p| ensures ReplyOk(t, s.s2p[i]) {
      assert ReplyOk(s, s.s2p[i]);
    }
  }

  lemma IdleKeeps(s: System, vs: seqno)
    requires Inv(s) && s.mode.Busy?
    requires !s.doubt ==> s.accepted == s.issued && AllAcknowledge(s) && vs == |s.issued| % 8
    ensures Inv(s.(mode := Idle(vs, s.pos % 8)))
  {
    hide Commands, ReplyBefore;
    var t := s.(mode := Idle(vs, s.pos % 8));
    CommandsOfMode(s, t.mode);
    forall i | 0 <= i < |s.s2p| ensures ReplyOk(t, s.s2p[i]) { assert ReplyOk(s, s.s2p[i]); }
  }

  /** Once the count of commands is in doubt, less is claimed. */
  lemma TurnsDoubtful(s: System)
    requires Inv(s)
    ensures Inv(s.(doubt := true))
  {
    hide Before, ReplyBefore;
    var t := s.(doubt := true);
    forall i | 0 <= i < |s.p2s| ensures CommandOk(t, s.p2s[i]) { assert CommandOk(s, s.p2s[i]); }
    forall i | 0 <= i < |s.s2p| ensures ReplyOk(t, s.s2p[i]) { assert ReplyOk(s, s.s2p[i]); }
  }

  /** No reply still on the line is an I-frame before the `m`-th. */
  ghost predicate AllFrom(s: System, m: nat)
  {
    forall i | 0 <= i < |s.s2p| :: s.s2p[i].Info? ==> m <= s.s2p[i].m
  }

  function WithVr(mode: Mode, vr: seqno): Mode
  {
    match mode
    case Idle(vs, _) => Idle(vs, vr)
    case Busy(call, x) => Busy(call, x.(vr := vr))
    case Lost => Lost
  }

  /** V(R) moves on to the `m`-th I-frame and past it; the primary takes that one. */
  function TakeUpTo(s: System, m: nat): System
    requires m < |s.stream|
  {
    s.(taken := s.taken + [s.stream[m]], pos := m + 1, mode := WithVr(s.mode, (m + 1) % 8))
  }

  lemma TakenCommands(s: System, m: nat)
    requires Commands(s) && s.pos <= m < |s.stream| && (s.stale || m == s.pos)
    ensures Commands(TakeUpTo(s, m))
  {
    hide Before;
    forall i | 0 <= i < |s.p2s| ensures CommandOk(TakeUpTo(s, m), s.p2s[i]) { assert CommandOk(s, s.p2s[i]); }
  }

  lemma TakenReplies(s: System, m: nat)
    requires Replies(s) && s.pos <= m < |s.stream| && AllFrom(s, m) && (Trusting(s) ==> AnswersAreNew(s))
    ensures var t := TakeUpTo(s, m); Replies(t) && Owed(t) && (Trusting(s) ==> AnswersAreNew(t))
  {
    hide ReplyBefore;
    var t := TakeUpTo(s, m);
    forall i | 0 <= i < |s.s2p| ensures ReplyOk(t, s.s2p[i]) && (Trusting(s) ==> AnswerIsNew(t, s.s2p[i])) {
      assert ReplyOk(s, s.s2p[i]) && (Trusting(s) ==> AnswerIsNew(s, s.s2p[i]));
    }
  }

  /** Taking an I-frame: the one at V(R) or, draining behind one that was let go of too early, the next. */
  lemma TakeKeeps(s: System, m: nat)
    requires Inv(s) && s.pos <= m < |s.stream| && AllFrom(s, m)
    requires Trusting(s) ==> AnswersAreNew(s)
    requires m == s.pos || s.stale
    ensures Inv(TakeUpTo(s, m)) && (Trusting(s) ==> AnswersAreNew(TakeUpTo(s, m)))
  {
    hide Commands, Replies, Owed, AnswersAreNew, AllFrom, RetapRouter;
    TakenCommands(s, m);
    TakenReplies(s, m);
  }

  /** What is left of the reply line after its head has been taken. */
  lemma ReplyTaken(s: System)
    requires Inv(s) && s.s2p != []
    ensures var t := s.(s2p := s.s2p[1..]); var e := s.s2p[0];
      && Inv(t) && ReplyOk(s, e) && (Trusting(s) && CanDeliver(s) ==> AnswerIsNew(s, e) && AnswersAreNew(t))
      && (e.Info? ==> AllFrom(t, e.m) && (e.m == s.pos ==> CanDeliver(s)))
      && (!e.Ua? && e.nr == |s.issued| ==> AllAcknowledge(t))
  {
    hide Commands, Before, ReplyBefore, Counts, PrimaryCounts, CanDeliver;
    RestDraws(s.s2p);
    DrawnReplies(s, s.s2p[1..]);
    CommandsApart(s, s.s2p[1..]);
    CountsApart(s, s.s2p[1..]);
    if s.s2p[0].Info? && s.s2p[0].m == s.pos { HeadDelivers(s); }
    LaterReplies(s);
    if Trusting(s) && AnswersAreNew(s) { RestAnswers(s); }
  }

  lemma HeadDelivers(s: System)
    requires s.s2p != [] && s.s2p[0].Info? && s.s2p[0].m == s.pos
    ensures CanDeliver(s)
  {}

  lemma LaterReplies(s: System)
    requires Replies(s) && s.s2p != []
    ensures var t := s.(s2p := s.s2p[1..]); var e := s.s2p[0];
      && (e.Info? ==> AllFrom(t, e.m)) && (!e.Ua? && e.nr == |s.issued| ==> AllAcknowledge(t))
  {
    forall i | 0 <= i < |s.s2p| - 1 ensures ReplyBefore(s.s2p[0], s.s2p[1..][i]) {
      assert s.s2p[1..][i] == s.s2p[i + 1];
    }
  }

  lemma RestAnswers(s: System)
    requires s.mode.Busy? && AnswersAreNew(s) && s.s2p != []
    ensures AnswersAreNew(s.(s2p := s.s2p[1..]))
  {
    var t := s.(s2p := s.s2p[1..]);
    forall i | 0 <= i < |t.s2p| ensures AnswerIsNew(t, t.s2p[i]) { assert AnswerIsNew(s, s.s2p[i + 1]); }
  }

  /** The primary's side of a new exchange. */
  ghost function Called(s: System, call: Call, x: Xch): System
  {
    s.(issued := s.issued + [call.message], base := s.pos, mode := Busy(call, x),
       doubt := s.doubt || Unguarded(s, call))
  }

  lemma CalledCommands(s: System, call: Call, x: Xch)
    requires Commands(s) && s.base <= s.pos
    ensures Commands(Called(s, call, x))
  {
    hide Before, Unguarded;
    forall i | 0 <= i < |s.p2s| ensures CommandOk(Called(s, call, x), s.p2s[i]) { assert CommandOk(s, s.p2s[i]); }
  }

  lemma CalledReplies(s: System, call: Call, x: Xch)
    requires Replies(s) && s.mode.Idle? && !x.acked
    ensures Replies(Called(s, call, x)) && Owed(Called(s, call, x))
  {
    hide ReplyBefore, RefusesReports;
    var t := Called(s, call, x);
    forall i | 0 <= i < |s.s2p|
      ensures ReplyOk(t, s.s2p[i]) && (!t.doubt && CanDeliver(s) ==> AnswerIsNew(t, s.s2p[i]))
    {
      assert ReplyOk(s, s.s2p[i]);
    }
  }

  lemma NewCallKeeps(s: System, call: Call, x: Xch)
    requires Inv(s) && s.mode.Idle? && call.addr == s.addr
    requires x.sentNs == x.vs == s.mode.vs && x.sentNr == x.vr == s.mode.vr && !x.acked && x.outcome == Running
    ensures Inv(Called(s, call, x))
  {
    hide Commands, Replies, Owed, OwesAnswer, RefusesReports;
    CalledCommands(s, call, x);
    CalledReplies(s, call, x);
  }

  lemma OneTag(s: System, sent: Sent)
    ensures Tags(s, [sent]) == [Tag(s, sent)] && Tags(s, []) == []
  {
    assert [sent][1..] == [];
  }

  lemma KeepsUnderStart(s: System, call: Call, now: int)
    requires Inv(s) && Enabled(s, Start(call, now))
    ensures Inv(BeginExchange(s, call, now))
  {
    hide Inv, Tags, Unguarded;
    var x := Begin(call, s.mode.vs, s.mode.vr, true, NO_STATS, now);
    var t := Called(s, call, x);
    NewCallKeeps(s, call, x);
    RequestJoins(t);
    OneTag(s.(issued := t.issued, base := t.base, doubt := t.doubt), x.writes[0]);
  }

  lemma KeepsUnderPolls(s: System, poll: bool)
    requires Inv(s) && Enabled(s, Polls(poll))
    ensures Inv(Apply(s, Polls(poll)))
  {
    hide Inv, BeginExchange, PrimaryHears, PrimaryTicks, IdleHears, SecondaryHears, Without, Doubled;
    AckJoins(s, poll);
  }

  /** Writing nothing, and writing one frame. */
  lemma ReactedSilently(s: System, call: Call, x: Xch)
    requires x.writes == [] && x.outcome == Running
    ensures Reacted(s, call, x, []) == s.(mode := Busy(call, x))
  {
    assert s.p2s + [] == s.p2s && s.taken + [] == s.taken;
  }

  lemma ReactedOnce(s: System, call: Call, x: Xch, took: seq<bytes>, sent: Sent)
    requires x.writes == [sent]
    ensures
      var t := s.(taken := s.taken + took, pos := s.pos + |took|);
      var mode := match x.outcome
        case Running => Busy(call, x)
        case Returned(_) => Idle(x.vs, x.vr)
        case TimedOut(_, _) => Idle(x.vs, x.vr)
        case LinkReset(_, _) => Lost;
      Reacted(s, call, x, took)
      == t.(mode := mode, p2s := s.p2s + [Tag(t, sent)], stale := s.stale || (sent.SentI? && (t.pos - t.base) % 8 == 7),
            doubt := s.doubt || Unanswered(x.outcome))
  {
    hide Tags;
    OneTag(s.(taken := s.taken + took, pos := s.pos + |took|), sent);
  }

  /** An RR in answer, and nothing taken. */
  lemma ReactedRr(s: System, call: Call, x: Xch, sent: Sent)
    requires x.writes == [sent] && sent.SentRr? && x.outcome == Running
    ensures Reacted(s, call, x, []) == s.(mode := Busy(call, x), p2s := s.p2s + [Ack(s.pos, sent.poll)])
  {
    hide Reacted;
    ReactedOnce(s, call, x, [], sent);
    assert s.taken + [] == s.taken;
  }

  lemma KeepsUnderResend(s: System, y: Xch)
    requires Inv(s) && s.mode.Busy? && SameCourse(y, s.mode.x) && y.writes == [] && y.retxLeft > 0
    ensures Inv(Reacted(s, s.mode.call, Resend(s.mode.call, y), []))
    ensures var t := Reacted(s, s.mode.call, Resend(s.mode.call, y), []); t.mode.Busy? && t.doubt == s.doubt
  {
    hide Inv, Tags, Reacted;
    var x := Resend(s.mode.call, y);
    ReactedOnce(s, s.mode.call, x, [], x.writes[0]);
    CourseKeeps(s, x);
    CourseHolds(s);
    var t := s.(mode := s.mode.(x := x));
    TurnsStale(t, s.stale || (s.pos - s.base) % 8 == 7);
    RequestJoins(t.(stale := s.stale || (s.pos - s.base) % 8 == 7));
    assert s.taken + [] == s.taken;
  }

  lemma CourseNumbers(s: System)
    requires Inv(s) && s.mode.Busy?
    ensures s.issued != [] && s.mode.x.vr == s.pos % 8 && s.mode.x.outcome == Running
    ensures !s.doubt ==>
      && s.mode.x.sentNs == (|s.issued| - 1) % 8
      && s.mode.x.vs == (if s.mode.x.acked then |s.issued| else |s.issued| - 1) % 8
  {
    hide Commands, Replies, Owed, Counts;
  }

  lemma CourseHolds(s: System)
    requires Inv(s) && s.mode.Busy?
    ensures PrimaryCounts(s) && s.issued != [] && s.mode.x.outcome == Running
  {}

  lemma KeepsUnderTicks(s: System, now: int)
    requires Inv(s) && Enabled(s, Ticks(now))
    ensures Inv(PrimaryTicks(s, now))
    ensures !PrimaryTicks(s, now).mode.Lost?
    ensures PrimaryTicks(s, now).doubt <==> s.doubt || Unanswered(Ticked(s, now).outcome)
  {
    hide Inv, Tags, Reacted, PrimaryCounts;
    var call := s.mode.call;
    var z := s.mode.x.(writes := [], taken := []);
    CourseHolds(s);
    var x := Ticked(s, now);
    if !z.acked && z.missing && now > z.retxAt && z.retxLeft > 0 {
      KeepsUnderResend(s, z.(retxAt := now + RETX_AFTER, missing := false));
    } else if now > z.deadline {
      TimeoutKeeps(s, x);
    } else {
      PollKeeps(s, x);
    }
  }

  lemma PollKeeps(s: System, x: Xch)
    requires Inv(s) && s.mode.Busy? && SameCourse(x, s.mode.x) && x.writes == [SentRr(s.mode.call.addr, x.vr, true)]
    requires x.outcome == Running
    ensures var t := Reacted(s, s.mode.call, x, []); Inv(t) && t.mode.Busy? && t.doubt == s.doubt
  {
    hide Inv, Reacted;
    ReactedRr(s, s.mode.call, x, x.writes[0]);
    CourseKeeps(s, x);
    AckJoins(s.(mode := s.mode.(x := x)), true);
  }

  lemma TimeoutKeeps(s: System, x: Xch)
    requires Inv(s) && s.mode.Busy? && x.writes == [] && x.taken == [] && x.outcome == TimedOut(x.acked, x.polls)
    requires x.acked == s.mode.x.acked && x.vs == s.mode.x.vs && x.vr == s.mode.x.vr
    ensures var t := Reacted(s, s.mode.call, x, []);
      Inv(t) && t.mode == Idle(x.vs, x.vr) && (t.doubt <==> s.doubt || !x.acked)
  {
    hide Before, ReplyBefore, Commands;
    assert s.taken + [] == s.taken && s.p2s + [] == s.p2s;
    if x.acked {
      if !s.doubt { AckedAll(s); }
      IdleKeeps(s, x.vs);
    } else {
      TurnsDoubtful(s);
      IdleKeeps(s.(doubt := true), x.vs);
    }
  }

  lemma AckedAll(s: System)
    requires Inv(s) && Trusting(s) && s.mode.x.acked
    ensures AllAcknowledge(s) && s.accepted == s.issued && s.mode.x.vs == |s.issued| % 8
  {
    hide Commands, ReplyBefore, Owed;
    forall i | 0 <= i < |s.s2p| ensures !s.s2p[i].Ua? ==> |s.issued| <= s.s2p[i].nr {
      assert ReplyOk(s, s.s2p[i]);
    }
  }

  /** The exchange as it stands after it has looked at a reply's N(R). */
  function Heeded(s: System, ctrl: byte): Xch
    requires s.mode.Busy?
  {
    ApplyAck(NoteMissing(s.mode.x.(writes := [], taken := []), ctrl), ctrl)
  }

  lemma NextOfSent(s: System)
    requires PrimaryCounts(s) && Trusting(s)
    ensures Next(s.mode.x.sentNs) == |s.issued| % 8
  {}

  lemma HeededByCount(s: System, ctrl: byte, nr: nat)
    requires PrimaryCounts(s) && Trusting(s) && NrOf(ctrl) == nr % 8 && Low(s) <= nr <= |s.accepted| <= |s.issued|
    ensures
      var z := NoteMissing(s.mode.x.(writes := [], taken := []), ctrl);
      Heeded(s, ctrl) == if nr == |s.issued| && !z.acked then MarkAcked(z) else z
  {
    hide NrOf, PrimaryCounts, Next;
    NextOfSent(s);
    if nr % 8 == |s.issued| % 8 {
      Residues(nr, |s.issued|);
    }
  }

  lemma HeededKeeps(s: System, ctrl: byte)
    requires Inv(s) && s.mode.Busy? && s.s2p != [] && !s.s2p[0].Ua? && NrOf(ctrl) == s.s2p[0].nr % 8
    ensures
      var y := Heeded(s, ctrl);
      var u := s.(s2p := s.s2p[1..], mode := s.mode.(x := y));
      && Inv(u) && (Trusting(s) && CanDeliver(s) ==> AnswersAreNew(u))
      && y.writes == [] && y.taken == [] && y.retxLeft == s.mode.x.retxLeft
  {
    hide Commands, Replies, Owed, NrOf, CanDeliver, AnswersAreNew;
    var e := s.s2p[0];
    var t := s.(s2p := s.s2p[1..]);
    ReplyTaken(s);
    var z := NoteMissing(s.mode.x.(writes := [], taken := []), ctrl);
    CourseKeeps(t, z);
    if s.doubt {
      CourseKeeps(t, Heeded(s, ctrl));
    } else {
      HeededByCount(s, ctrl, e.nr);
      if e.nr == |s.issued| && !z.acked {
        AckedKeeps(t.(mode := s.mode.(x := z)));
      }
    }
  }

  lemma KeepsOnUa(s: System, at: int)
    requires Inv(s) && Enabled(s, Hears(at)) && s.s2p[0].Ua?
    ensures var t := PrimaryHears(s, at); Inv(t) && !t.mode.Lost? && t.doubt == s.doubt
  {
    hide Inv, Tags, Reacted, PrimaryCounts, KindOf, WithoutPf, NrOf, NsOf, AllAcknowledge, ReplyOk;
    UFramesAreUnnumbered(UA);
    ReplyTaken(s);
    CourseHolds(s);
    CourseCall(s);
    var t := s.(s2p := s.s2p[1..]);
    var z := s.mode.x.(writes := [], taken := []);
    assert Heard(s, at) == z;
    ReactedSilently(t, s.mode.call, z);
    CourseKeeps(t, z);
  }

  lemma CourseCall(s: System)
    requires Inv(s) && s.mode.Busy?
    ensures s.mode.call.addr == s.addr
  {}

  lemma HeardSupervisory(s: System, at: int)
    requires Inv(s) && Enabled(s, Hears(at)) && s.s2p[0].Sup?
    ensures Heard(s, at) == OnSupervisory(s.mode.call, Heeded(s, PriSees(s.addr, s.s2p[0]).ctrl), s.s2p[0].kind)
    ensures NrOf(PriSees(s.addr, s.s2p[0]).ctrl) == s.s2p[0].nr % 8
    ensures s.s2p[0].kind in {Kind.Rr, Rnr, Rej, Srej}
  {
    hide Inv, PrimaryCounts, KindOf, NrOf, NsOf, AllAcknowledge, ApplyAck, NoteMissing, OnSupervisory, SControl;
    ReplyTaken(s);
    CourseCall(s);
    SControlRoundTrip(s.s2p[0].kind, s.s2p[0].nr % 8, true);
  }

  lemma KeepsOnSupervisory(s: System, at: int)
    requires Inv(s) && Enabled(s, Hears(at)) && s.s2p[0].Sup?
    ensures var t := PrimaryHears(s, at); Inv(t) && !t.mode.Lost? && t.doubt == s.doubt
  {
    hide Inv, Tags, Reacted, PrimaryCounts, Heard, Heeded, PriSees;
    HeardSupervisory(s, at);
    var ctrl := PriSees(s.addr, s.s2p[0]).ctrl;
    HeededKeeps(s, ctrl);
    var y := Heeded(s, ctrl);
    var u := s.(s2p := s.s2p[1..], mode := s.mode.(x := y));
    CourseHolds(u);
    var x := Heard(s, at);
    ReactedFrom(s.(s2p := s.s2p[1..]), u, s.mode.call, x, x.taken);
    if x.writes == [] {
      ReactedSilently(u, s.mode.call, x);
      CourseKeeps(u, x);
    } else {
      KeepsUnderResend(u, y);
    }
  }

  /** What the reaction becomes does not depend on the exchange as it stood. */
  lemma ReactedFrom(s: System, t: System, call: Call, x: Xch, took: seq<bytes>)
    requires t == s.(mode := t.mode)
    ensures Reacted(s, call, x, took) == Reacted(t, call, x, took)
  {
    var u := t.(taken := t.taken + took, pos := t.pos + |took|);
    TagsFrom(s.(taken := s.taken + took, pos := s.pos + |took|), u, x.writes);
  }

  lemma {:induction false} TagsFrom(s: System, t: System, writes: seq<Sent>)
    requires t == s.(mode := t.mode)
    ensures Tags(s, writes) == Tags(t, writes)
  {
    if writes != [] {
      TagsFrom(s, t, writes[1..]);
    }
  }

  lemma HeardInformation(s: System, at: int)
    requires Inv(s) && Enabled(s, Hears(at)) && s.s2p[0].Info?
    ensures
      var Info(m, nr, payload) := s.s2p[0];
      var ctrl := PriSees(s.addr, s.s2p[0]).ctrl;
      && Heard(s, at) == OnInformation(s.mode.call, Heeded(s, ctrl), m % 8, payload, at)
      && NrOf(ctrl) == nr % 8
  {
    hide Inv, PrimaryCounts, KindOf, NrOf, NsOf, AllAcknowledge, ApplyAck, NoteMissing, OnInformation, IControl;
    CourseCall(s);
    IControlRoundTrip(s.s2p[0].m % 8, s.s2p[0].nr % 8);
  }

  /** An I-frame the primary has taken already is answered with an RR that polls. */
  lemma KeepsOnDuplicate(s: System, call: Call, ns: seqno, payload: bytes, at: int)
    requires Inv(s) && s.mode.Busy? && s.mode.call == call && s.mode.x.writes == [] && s.mode.x.taken == []
    requires ns != s.mode.x.vr
    ensures var x := OnInformation(call, s.mode.x, ns, payload, at);
      var t := Reacted(s, call, x, x.taken); Inv(t) && !t.mode.Lost? && t.doubt == s.doubt
  {
    hide Inv, Reacted, PrimaryCounts, Tags;
    CourseHolds(s);
    var x := OnInformation(call, s.mode.x, ns, payload, at);
    ReactedRr(s, call, x, x.writes[0]);
    CourseKeeps(s, x);
    AckJoins(s.(mode := s.mode.(x := x)), true);
  }

  lemma InformationTaken(call: Call, x: Xch, payload: bytes, at: int)
    requires x.writes == [] && x.taken == [] && x.outcome == Running
    ensures
      var y := OnInformation(call, x, x.vr, payload, at);
      && y.vr == Next(x.vr) && y.taken == [payload]
      && y.writes == [SentRr(call.addr, y.vr, call.router(payload) != Accept)]
      && if call.router(payload) == Accept then
           y.vs == (if x.acked then x.vs else Next(x.sentNs)) && y.outcome == Returned(payload)
         else SameCourse(y, x.(vr := y.vr))
  {
    hide Next;
  }

  /** Where V(S) and V(R) stand when the next I-frame has been taken. */
  lemma NumbersAfterNext(s: System, call: Call, payload: bytes, at: int)
    requires Inv(s) && s.mode.Busy? && s.mode.call == call && s.mode.x.writes == [] && s.mode.x.taken == []
    ensures
      var x := OnInformation(call, s.mode.x, s.pos % 8, payload, at);
      && x.vr == (s.pos + 1) % 8 && x.taken == [payload]
      && x.writes == [SentRr(call.addr, x.vr, call.router(payload) != Accept)]
      && if call.router(payload) == Accept then
           (!s.doubt ==> x.vs == |s.issued| % 8) && x.outcome == Returned(payload)
         else SameCourse(x, s.mode.x.(vr := x.vr))
  {
    hide Inv, Next, OnInformation;
    CourseNumbers(s);
    InformationTaken(call, s.mode.x, payload, at);
    NextOf(s.pos);
    NextOf(|s.issued| - 1);
  }

  /** The answer ends the exchange; the acknowledgement asks for nothing more. */
  lemma KeepsOnAnswer(s: System, call: Call, payload: bytes, at: int)
    requires Inv(s) && s.mode.Busy? && s.mode.call == call && s.mode.x.writes == [] && s.mode.x.taken == []
    requires s.pos < |s.stream| && AllFrom(s, s.pos) && payload == s.stream[s.pos] && call.router(payload) == Accept
    requires !s.doubt ==> AnswersAreNew(s) && s.accepted == s.issued && AllAcknowledge(s)
    ensures var x := OnInformation(call, s.mode.x, s.pos % 8, payload, at);
      var t := Reacted(s, call, x, x.taken); Inv(t) && !t.mode.Lost? && t.doubt == s.doubt
  {
    hide Inv, Reacted, Tags, AllFrom, AnswersAreNew, OnInformation, PrimaryCounts;
    CourseHolds(s);
    NumbersAfterNext(s, call, payload, at);
    var x := OnInformation(call, s.mode.x, s.pos % 8, payload, at);
    TakeKeeps(s, s.pos);
    var t := TakeUpTo(s, s.pos);
    ReactedOnce(s, call, x, [payload], x.writes[0]);
    IdleKeeps(t, x.vs);
    AckJoins(t.(mode := Idle(x.vs, t.pos % 8)), false);
  }

  /** Anything else is acknowledged with a poll, and the exchange goes on. */
  lemma KeepsOnOther(s: System, call: Call, payload: bytes, at: int)
    requires Inv(s) && s.mode.Busy? && s.mode.call == call && s.mode.x.writes == [] && s.mode.x.taken == []
    requires s.pos < |s.stream| && AllFrom(s, s.pos) && payload == s.stream[s.pos] && call.router(payload) != Accept
    requires !s.doubt ==> AnswersAreNew(s)
    ensures var x := OnInformation(call, s.mode.x, s.pos % 8, payload, at);
      var t := Reacted(s, call, x, x.taken); Inv(t) && !t.mode.Lost? && t.doubt == s.doubt
  {
    hide Inv, Reacted, Tags, AllFrom, AnswersAreNew, OnInformation, PrimaryCounts;
    CourseHolds(s);
    NumbersAfterNext(s, call, payload, at);
    var x := OnInformation(call, s.mode.x, s.pos % 8, payload, at);
    TakeKeeps(s, s.pos);
    var t := TakeUpTo(s, s.pos);
    ReactedOnce(s, call, x, [payload], x.writes[0]);
    CourseKeeps(t, x);
    AckJoins(t.(mode := t.mode.(x := x)), true);
  }

  lemma KeepsOnInformation(s: System, at: int)
    requires Inv(s) && Enabled(s, Hears(at)) && s.s2p[0].Info?
    ensures var t := PrimaryHears(s, at); Inv(t) && !t.mode.Lost? && t.doubt == s.doubt
  {
    hide Tags, Reacted, Heard, Heeded, PriSees, Commands, OnInformation, Before, ReplyBefore;
    HeardInformation(s, at);
    var Info(m, nr, payload) := s.s2p[0];
    var ctrl := PriSees(s.addr, s.s2p[0]).ctrl;
    HeededKeeps(s, ctrl);
    ReplyTaken(s);
    var u := s.(s2p := s.s2p[1..], mode := s.mode.(x := Heeded(s, ctrl)));
    var x := Heard(s, at);
    ReactedFrom(s.(s2p := s.s2p[1..]), u, s.mode.call, x, x.taken);
    if m == s.pos {
      if s.mode.call.router(payload) == Accept {
        KeepsOnAnswer(u, s.mode.call, payload, at);
      } else {
        KeepsOnOther(u, s.mode.call, payload, at);
      }
    } else {
      if m % 8 == s.pos % 8 { Residues(m, s.pos); }
      KeepsOnDuplicate(u, s.mode.call, m % 8, payload, at);
    }
  }

  lemma KeepsUnderHears(s: System, at: int)
    requires Inv(s) && Enabled(s, Hears(at))
    ensures var t := PrimaryHears(s, at); Inv(t) && !t.mode.Lost? && t.doubt == s.doubt
  {
    hide Inv, Enabled, PrimaryHears;
    HearsHead(s, at);
    match s.s2p[0]
    case Ua => KeepsOnUa(s, at);
    case Info(_, _, _) => KeepsOnInformation(s, at);
    case Sup(_, _) => KeepsOnSupervisory(s, at);
  }

  lemma HearsHead(s: System, at: int)
    requires Enabled(s, Hears(at))
    ensures s.mode.Busy? && s.s2p != []
  {}

  lemma KeepsUnderIdleTakes(s: System, drain: bool)
    requires Inv(s) && Enabled(s, IdleTakes(drain))
    ensures Inv(IdleHears(s, drain)) && IdleHears(s, drain).mode.Idle?
  {
    hide Commands, Before, ReplyBefore, Owed, KindOf, NsOf, NrOf, SControl, IControl, WithoutPf, HasPf;
    ReplyTaken(s);
    var t := s.(s2p := s.s2p[1..]);
    match s.s2p[0]
    case Ua => UFramesAreUnnumbered(UA);
    case Sup(kind, nr) => SControlRoundTrip(kind, nr % 8, true);
    case Info(_, _, _) => IdleTaken(s, drain);
  }

  /** Where an I-frame on the line stands to V(R). */
  lemma NearVr(s: System, m: nat)
    requires Counts(s) && s.pos - 1 <= m < |s.stream|
    ensures m <= s.pos + 1 && (m == s.pos + 1 ==> s.stale)
    ensures m % 8 == s.pos % 8 <==> m == s.pos
    ensures (m + 1) % 8 == s.pos % 8 <==> m == s.pos - 1
    ensures ((m + 1) % 8 - s.pos % 8) % 8 == m + 1 - s.pos
  {}

  /** An I-frame heard between exchanges, counted without bound. */
  lemma IdleHearsBy(s: System, m: nat, drain: bool)
    requires Counts(s) && PrimaryCounts(s) && Enabled(s, IdleTakes(drain)) && s.s2p[0].Info? && s.s2p[0].m == m
    requires ReplyOk(s, s.s2p[0])
    ensures
      var t := s.(s2p := s.s2p[1..]);
      IdleHears(s, drain) ==
        if m == s.pos - 1 then if drain then t.(p2s := t.p2s + [Ack(t.pos, drain)]) else t
        else if m == s.pos || drain then var u := TakeUpTo(t, m); u.(p2s := u.p2s + [Ack(u.pos, drain)])
        else t
  {
    hide StationCounts, KindOf, NsOf, NrOf, IControl, Next, Released;
    NearVr(s, m);
    NextOf(m);
    IControlRoundTrip(m % 8, s.s2p[0].nr % 8);
  }

  lemma IdleTaken(s: System, drain: bool)
    requires Inv(s) && Enabled(s, IdleTakes(drain)) && s.s2p[0].Info?
    ensures Inv(IdleHears(s, drain)) && IdleHears(s, drain).mode.Idle?
  {
    hide Commands, Replies, Owed, Counts, IdleHears, AllFrom, AllAcknowledge;
    var m := s.s2p[0].m;
    ReplyTaken(s);
    IdleHearsBy(s, m, drain);
    NearVr(s, m);
    var t := s.(s2p := s.s2p[1..]);
    if m == s.pos - 1 {
      if drain { AckJoins(t, drain); }
    } else if m == s.pos || drain {
      TakeKeeps(t, m);
      AckJoins(TakeUpTo(t, m), drain);
    }
  }

  // ----- runs -----

  lemma KeepsStep(s: System, step: Step)
    requires Inv(s) && Enabled(s, step)
    ensures Inv(Apply(s, step))
  {
    hide Inv, BeginExchange, PrimaryHears, PrimaryTicks, IdleHears, SecondaryHears, Ticked, Heard, OwesAnswer,
         PriSees;
    match step
    case Start(call, now) => KeepsUnderStart(s, call, now);
    case Hears(at) => KeepsUnderHears(s, at);
    case Ticks(now) => KeepsUnderTicks(s, now);
    case Polls(poll) => KeepsUnderPolls(s, poll);
    case IdleTakes(drain) => KeepsUnderIdleTakes(s, drain);
    case Answers(c) => KeepsUnderAnswers(s, c);
    case _ => KeepsUnderLoss(s, step);
  }

  lemma AnswersLeaveMode(s: System, c: Choice)
    requires s.p2s != []
    ensures SecondaryHears(s, c).mode == s.mode && SecondaryHears(s, c).doubt == s.doubt
  {}
}
