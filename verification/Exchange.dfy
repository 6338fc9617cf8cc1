/** What every run of an exchange keeps, and how it can end. */
module Exchange {
  import opened Bits
  import opened Control
  import opened Link
  import opened Numbers

  /** How often the request itself has been written. */
  function Requests(writes: seq<Sent>): nat
  {
    if writes == [] then 0
    else Requests(writes[..|writes| - 1]) + (if writes[|writes| - 1].SentI? then 1 else 0)
  }

  /** Every I-frame written is this very one. */
  predicate OnlyRequest(writes: seq<Sent>, request: Sent)
  {
    writes == [] ||
    (OnlyRequest(writes[..|writes| - 1], request) &&
     (writes[|writes| - 1].SentI? ==> writes[|writes| - 1] == request))
  }

  /** The payloads that are reports, in order. */
  function Indicated(router: Router, taken: seq<bytes>): seq<bytes>
  {
    if taken == [] then []
    else
      var rest, last := taken[..|taken| - 1], taken[|taken| - 1];
      Indicated(router, rest) + (if router(last) == Indication then [last] else [])
  }

  predicate NoneAccepted(router: Router, taken: seq<bytes>)
  {
    taken == [] ||
    (NoneAccepted(router, taken[..|taken| - 1]) && router(taken[|taken| - 1]) != Accept)
  }

  lemma WritesGrow(writes: seq<Sent>, sent: Sent, request: Sent)
    ensures Requests(writes + [sent]) == Requests(writes) + (if sent.SentI? then 1 else 0)
    ensures OnlyRequest(writes + [sent], request) <==>
              OnlyRequest(writes, request) && (sent.SentI? ==> sent == request)
  {
    assert (writes + [sent])[..|writes|] == writes;
  }

  lemma TakenGrow(router: Router, taken: seq<bytes>, payload: bytes)
    ensures Indicated(router, taken + [payload])
         == Indicated(router, taken) + (if router(payload) == Indication then [payload] else [])
    ensures NoneAccepted(router, taken + [payload]) <==> NoneAccepted(router, taken) && router(payload) != Accept
  {
    assert (taken + [payload])[..|taken|] == taken;
  }

  /** The peer's state at the start. */
  datatype From = From(vs: seqno, vr: seqno, connected: bool)

  function RequestOf(call: Call, from: From): Sent
  {
    SentI(call.addr, from.vs, from.vr, call.message)
  }

  /** Each retry budgeted is a request written, and nothing else is. */
  ghost predicate SoundWrites(call: Call, from: From, x: Xch)
  {
    && x.sentNs == from.vs && x.sentNr == from.vr
    && x.retxLeft <= RETX_LIMIT && Requests(x.writes) == 1 + RETX_LIMIT - x.retxLeft
    && OnlyRequest(x.writes, RequestOf(call, from))
  }

  /** What was taken in sequence went where the router said, and the exchange ends on the first acceptance. */
  ghost predicate SoundTaken(call: Call, x: Xch)
  {
    && x.indications == Indicated(call.router, x.taken)
    && if x.outcome.Returned? then
         && x.taken != [] && x.taken[|x.taken| - 1] == x.outcome.payload && call.router(x.outcome.payload) == Accept
         && NoneAccepted(call.router, x.taken[..|x.taken| - 1])
       else NoneAccepted(call.router, x.taken)
  }

  /** Where V(S) and V(R) stand. */
  ghost predicate SoundState(from: From, x: Xch)
  {
    && (x.outcome.TimedOut? ==> x.outcome.acked == x.acked && x.outcome.polls == x.polls)
    && if x.outcome.LinkReset? then x.vs == 0 && x.vr == 0 && !x.connected
       else
         && x.connected == from.connected && x.vr == (from.vr + |x.taken|) % 8
         && x.vs == if x.acked || x.outcome.Returned? then Next(from.vs) else from.vs
  }

  ghost predicate Sound(call: Call, from: From, x: Xch)
  {
    SoundWrites(call, from, x) && SoundTaken(call, x) && SoundState(from, x)
  }

  lemma InformationWrites(call: Call, from: From, x: Xch, ns: seqno, payload: bytes, at: int)
    requires SoundWrites(call, from, x)
    ensures SoundWrites(call, from, OnInformation(call, x, ns, payload, at))
  {
    hide OnlyRequest, Requests;
    var y := OnInformation(call, x, ns, payload, at);
    WritesGrow(x.writes, SentRr(call.addr, y.vr, true), RequestOf(call, from));
    WritesGrow(x.writes, SentRr(call.addr, y.vr, false), RequestOf(call, from));
  }

  lemma InformationTaken(call: Call, x: Xch, ns: seqno, payload: bytes, at: int)
    requires SoundTaken(call, x) && x.outcome.Running?
    ensures SoundTaken(call, OnInformation(call, x, ns, payload, at))
  {
    hide NoneAccepted, Indicated;
    TakenGrow(call.router, x.taken, payload);
    assert (x.taken + [payload])[..|x.taken|] == x.taken;
  }

  lemma InformationState(call: Call, from: From, x: Xch, ns: seqno, payload: bytes, at: int)
    requires SoundWrites(call, from, x) && SoundState(from, x) && x.outcome.Running?
    ensures SoundState(from, OnInformation(call, x, ns, payload, at))
  {
    hide OnlyRequest, Requests, Next;
    NextOf(from.vr + |x.taken|);
  }

  lemma SoundInformation(call: Call, from: From, x: Xch, ns: seqno, payload: bytes, at: int)
    requires Sound(call, from, x) && x.outcome.Running?
    ensures Sound(call, from, OnInformation(call, x, ns, payload, at))
  {
    hide OnInformation, SoundWrites, SoundTaken, SoundState;
    InformationWrites(call, from, x, ns, payload, at);
    InformationTaken(call, x, ns, payload, at);
    InformationState(call, from, x, ns, payload, at);
  }

  lemma SoundSupervisory(call: Call, from: From, x: Xch, kind: Kind)
    requires Sound(call, from, x) && x.outcome.Running?
    ensures Sound(call, from, OnSupervisory(call, x, kind))
  {
    WritesGrow(x.writes, RequestOf(call, from), RequestOf(call, from));
  }

  lemma SoundFrame(call: Call, from: From, x: Xch, f: Timed)
    requires Sound(call, from, x) && x.outcome.Running?
    ensures Sound(call, from, OnFrame(call, x, f))
  {
    hide KindOf, NrOf, NsOf, WithoutPf, OnlyRequest, Requests, NoneAccepted, Indicated, OnInformation, OnSupervisory;
    var Timed(Frame(addr, ctrl, payload), at) := f;
    if addr == call.addr && KindOf(ctrl) != U {
      var y := ApplyAck(NoteMissing(x, ctrl), ctrl);
      if KindOf(ctrl) == I {
        SoundInformation(call, from, y, NsOf(ctrl), payload, at);
      } else {
        SoundSupervisory(call, from, y, KindOf(ctrl));
      }
    }
  }

  lemma {:induction false} SoundFrames(call: Call, from: From, x: Xch, frames: seq<Timed>)
    requires Sound(call, from, x)
    ensures Sound(call, from, OnFrames(call, x, frames))
    decreases |frames|
  {
    hide OnFrame, Sound;
    if frames != [] && x.outcome.Running? {
      SoundFrame(call, from, x, frames[0]);
      SoundFrames(call, from, OnFrame(call, x, frames[0]), frames[1..]);
    }
  }

  lemma SoundAfterBatch(call: Call, from: From, x: Xch, now: int)
    requires Sound(call, from, x) && x.outcome.Running?
    ensures Sound(call, from, AfterBatch(call, x, now))
  {
    hide OnlyRequest, Requests, NoneAccepted, Indicated;
    WritesGrow(x.writes, RequestOf(call, from), RequestOf(call, from));
    WritesGrow(x.writes, SentRr(call.addr, x.vr, true), RequestOf(call, from));
  }

  lemma {:induction false} SoundRun(call: Call, from: From, x: Xch, passes: seq<Pass>)
    requires Sound(call, from, x)
    ensures Sound(call, from, Run(call, x, passes))
    decreases |passes|
  {
    hide OnFrames, AfterBatch, Sound;
    if passes != [] && x.outcome.Running? {
      var y := OnFrames(call, x, passes[0].frames);
      SoundFrames(call, from, x, passes[0].frames);
      if y.outcome.Running? { SoundAfterBatch(call, from, y, passes[0].now); }
      SoundRun(call, from, OnPass(call, x, passes[0]), passes[1..]);
    }
  }

  function Start(call: Call, from: From, stats: Stats, now: int): Xch
  {
    Begin(call, from.vs, from.vr, from.connected, stats, now)
  }

  /** Over every script of frames and clock readings: the request is written at most four times and is
      always the same; every payload taken in sequence moves V(R) by one; reports are handed on once
      each, in order; and V(S) ends where the outcome says. */
  lemma ExchangeOutcomes(call: Call, from: From, stats: Stats, now: int, passes: seq<Pass>)
    ensures var x := Run(call, Start(call, from, stats, now), passes);
            && 1 <= Requests(x.writes) <= 4 && OnlyRequest(x.writes, RequestOf(call, from))
            && x.indications == Indicated(call.router, x.taken)
            && match x.outcome
               case Running => true
               case Returned(payload) =>
                 && x.vs == Next(from.vs) && x.vr == (from.vr + |x.taken|) % 8 && x.connected == from.connected
                 && x.taken != [] && payload == x.taken[|x.taken| - 1] && call.router(payload) == Accept
               case TimedOut(acked, _) =>
                 && x.vs == (if acked then Next(from.vs) else from.vs)
                 && x.vr == (from.vr + |x.taken|) % 8 && x.connected == from.connected
                 && NoneAccepted(call.router, x.taken)
               case LinkReset(_, _) => x.vs == 0 && x.vr == 0 && !x.connected
  {
    var x := Start(call, from, stats, now);
    assert x.writes == [] + [RequestOf(call, from)];
    WritesGrow([], RequestOf(call, from), RequestOf(call, from));
    SoundRun(call, from, x, passes);
  }

  /** With the RETAP router a returned payload answers the procedure that was asked for. */
  lemma ReturnedAnswersRequest(call: Call, from: From, stats: Stats, now: int, passes: seq<Pass>)
    requires call.router == RetapRouter(call.message) && call.message != []
    ensures var x := Run(call, Start(call, from, stats, now), passes);
            x.outcome.Returned? ==> x.outcome.payload != [] && x.outcome.payload[0] == call.message[0]
  {
    ExchangeOutcomes(call, from, stats, now, passes);
  }

  // ----- when the request is written again -----

  lemma AckedFrame(call: Call, x: Xch, f: Timed)
    requires x.acked
    ensures var y := OnFrame(call, x, f); y.acked && Requests(y.writes) == Requests(x.writes)
  {
    hide KindOf, NrOf, NsOf, WithoutPf, Requests;
    var request := SentI(call.addr, x.sentNs, x.sentNr, call.message);
    var ns := NsOf(f.frame.ctrl);
    WritesGrow(x.writes, SentRr(call.addr, x.vr, true), request);
    WritesGrow(x.writes, SentRr(call.addr, Next(ns), true), request);
    WritesGrow(x.writes, SentRr(call.addr, Next(ns), false), request);
  }

  lemma {:induction false} AckedFrames(call: Call, x: Xch, frames: seq<Timed>)
    requires x.acked
    ensures var y := OnFrames(call, x, frames); y.acked && Requests(y.writes) == Requests(x.writes)
    decreases |frames|
  {
    hide OnFrame, Requests;
    if frames != [] && x.outcome.Running? {
      AckedFrame(call, x, frames[0]);
      AckedFrames(call, OnFrame(call, x, frames[0]), frames[1..]);
    }
  }

  /** Once the device has acknowledged the command it is never sent again. */
  lemma {:induction false} NoResendAfterAck(call: Call, x: Xch, passes: seq<Pass>)
    requires x.acked
    ensures var y := Run(call, x, passes); y.acked && Requests(y.writes) == Requests(x.writes)
    decreases |passes|
  {
    hide OnFrames, Requests;
    if passes != [] && x.outcome.Running? {
      var y := OnFrames(call, x, passes[0].frames);
      AckedFrames(call, x, passes[0].frames);
      WritesGrow(y.writes, SentRr(call.addr, y.vr, true), RequestOf(call, From(x.sentNs, x.sentNr, true)));
      NoResendAfterAck(call, OnPass(call, x, passes[0]), passes[1..]);
    }
  }

  lemma InformationNoRequest(call: Call, x: Xch, ns: seqno, payload: bytes, at: int)
    ensures var y := OnInformation(call, x, ns, payload, at);
            Requests(y.writes) == Requests(x.writes) && y.missing == x.missing && y.sentNs == x.sentNs
  {
    hide Requests, OnlyRequest, Next, Min;
    var y := OnInformation(call, x, ns, payload, at);
    WritesGrow(x.writes, SentRr(call.addr, y.vr, true), SentRr(call.addr, y.vr, true));
    WritesGrow(x.writes, SentRr(call.addr, y.vr, false), SentRr(call.addr, y.vr, false));
  }

  lemma SupervisoryRequest(call: Call, x: Xch, kind: Kind)
    ensures var y := OnSupervisory(call, x, kind);
            && Requests(y.writes)
               == Requests(x.writes) + (if kind !in {Rr, Rnr} && !x.acked && x.retxLeft > 0 then 1 else 0)
            && y.missing == x.missing && y.sentNs == x.sentNs
  {
    hide Requests, OnlyRequest;
    var request := SentI(call.addr, x.sentNs, x.sentNr, call.message);
    WritesGrow(x.writes, request, request);
  }

  lemma HeedNoRequest(x: Xch, ctrl: byte)
    ensures var y := ApplyAck(NoteMissing(x, ctrl), ctrl);
      && y.writes == x.writes && y.retxLeft == x.retxLeft && y.sentNs == x.sentNs
      && (y.acked <==> x.acked || NrOf(ctrl) == Next(x.sentNs))
      && (y.missing <==> x.missing || NrOf(ctrl) == x.sentNs)
  {
    hide NrOf, Next;
  }

  /** What a received frame brings the request for again: a REJ or SREJ, whatever N(R) it carries, unless
      that N(R) or an earlier one acknowledged the request or the retries are used up. */
  lemma ResendOnFrame(call: Call, x: Xch, f: Timed)
    ensures var ctrl := f.frame.ctrl;
            Requests(OnFrame(call, x, f).writes)
            == Requests(x.writes)
               + (if f.frame.addr == call.addr && KindOf(ctrl) in {Rej, Srej} && !x.acked
                     && NrOf(ctrl) != Next(x.sentNs) && x.retxLeft > 0 then 1 else 0)
  {
    hide KindOf, NrOf, NsOf, WithoutPf, Requests, Next, OnInformation, OnSupervisory, ApplyAck, NoteMissing;
    var Timed(Frame(addr, ctrl, payload), at) := f;
    var y := ApplyAck(NoteMissing(x, ctrl), ctrl);
    HeedNoRequest(x, ctrl);
    InformationNoRequest(call, y, NsOf(ctrl), payload, at);
    SupervisoryRequest(call, y, KindOf(ctrl));
  }

  /** After a read the request goes out again exactly when an N(R) heard since the last time still asked for
      it, no acknowledgement has been seen, its second has passed and a retry is left. */
  lemma ResendAfterRead(call: Call, x: Xch, now: int)
    ensures Requests(AfterBatch(call, x, now).writes)
            == Requests(x.writes) + (if !x.acked && x.missing && now > x.retxAt && x.retxLeft > 0 then 1 else 0)
  {
    hide Requests, OnlyRequest;
    var y := AfterBatch(call, x, now);
    if |y.writes| > |x.writes| {
      WritesGrow(x.writes, y.writes[|x.writes|], SentI(call.addr, x.sentNs, x.sentNr, call.message));
    }
  }

  /** A frame that can bring the request again: the peer's own, and either its N(R) still asks for the
      request or it is a REJ or SREJ. */
  predicate Asks(call: Call, x: Xch, f: Timed)
  {
    var kind := KindOf(f.frame.ctrl);
    f.frame.addr == call.addr && kind != U && (NrOf(f.frame.ctrl) == x.sentNs || kind == Rej || kind == Srej)
  }

  predicate Silent(call: Call, x: Xch, frames: seq<Timed>)
  {
    forall f | f in frames :: !Asks(call, x, f)
  }

  lemma SilentFrame(call: Call, x: Xch, f: Timed)
    requires !Asks(call, x, f) && !x.missing
    ensures var y := OnFrame(call, x, f);
            !y.missing && y.sentNs == x.sentNs && Requests(y.writes) == Requests(x.writes)
  {
    hide KindOf, NrOf, NsOf, WithoutPf, Requests, Next, OnInformation, OnSupervisory, ApplyAck, NoteMissing;
    var Timed(Frame(addr, ctrl, payload), at) := f;
    var y := ApplyAck(NoteMissing(x, ctrl), ctrl);
    HeedNoRequest(x, ctrl);
    InformationNoRequest(call, y, NsOf(ctrl), payload, at);
    SupervisoryRequest(call, y, KindOf(ctrl));
  }

  lemma {:induction false} SilentFrames(call: Call, x: Xch, frames: seq<Timed>)
    requires Silent(call, x, frames) && !x.missing
    ensures var y := OnFrames(call, x, frames);
            !y.missing && y.sentNs == x.sentNs && Requests(y.writes) == Requests(x.writes)
    decreases |frames|
  {
    hide OnFrame, Requests, Asks;
    if frames != [] && x.outcome.Running? {
      var y := OnFrame(call, x, frames[0]);
      assert !Asks(call, x, frames[0]);
      SilentFrame(call, x, frames[0]);
      AskingDependsOnNs(call, x, y, frames);
      SilentFrames(call, y, frames[1..]);
    }
  }

  lemma AskingDependsOnNs(call: Call, x: Xch, y: Xch, frames: seq<Timed>)
    requires x.sentNs == y.sentNs && frames != []
    ensures Silent(call, x, frames) ==> Silent(call, y, frames[1..])
  {
    hide KindOf, NrOf;
    assert forall f | f in frames[1..] :: f in frames;
  }

  /** Silence never brings the request again, however long it lasts: only a frame of the peer that asks
      for it does. */
  lemma {:induction false} SilenceNeverResends(call: Call, x: Xch, passes: seq<Pass>)
    requires !x.missing && forall p | p in passes :: Silent(call, x, p.frames)
    ensures Requests(Run(call, x, passes).writes) == Requests(x.writes)
    decreases |passes|
  {
    hide OnFrames, Requests, Silent;
    if passes != [] && x.outcome.Running? {
      var y := OnFrames(call, x, passes[0].frames);
      SilentFrames(call, x, passes[0].frames);
      WritesGrow(y.writes, SentRr(call.addr, y.vr, true), RequestOf(call, From(x.sentNs, x.sentNr, true)));
      var z := OnPass(call, x, passes[0]);
      assert !z.missing && z.sentNs == x.sentNs && Requests(z.writes) == Requests(x.writes);
      forall p | p in passes[1..] ensures Silent(call, z, p.frames) {
        assert p in passes;
        SilentSameNs(call, x, z, p.frames);
      }
      SilenceNeverResends(call, z, passes[1..]);
    }
  }

  lemma SilentSameNs(call: Call, x: Xch, y: Xch, frames: seq<Timed>)
    requires x.sentNs == y.sentNs && Silent(call, x, frames)
    ensures Silent(call, y, frames)
  {
    hide KindOf, NrOf;
  }

  // ----- the poll budget -----

  /** Clock readings never go back, and a poll sleeps for at least the poll interval. */
  ghost predicate FramesClocked(frames: seq<Timed>, since: int, until: int)
  {
    if frames == [] then since <= until
    else since <= frames[0].at && FramesClocked(frames[1..], frames[0].at, until)
  }

  ghost predicate Clocked(call: Call, x: Xch, passes: seq<Pass>, since: int)
    decreases |passes|
  {
    passes == [] ||
    var y := OnPass(call, x, passes[0]);
    && FramesClocked(passes[0].frames, since, passes[0].now)
    && Clocked(call, y, passes[1..], passes[0].now + (if y.polls > x.polls then call.pollInterval else 0))
  }

  /** `start` is when the request went out, `since` a time that has been reached. */
  ghost predicate Budgeted(call: Call, x: Xch, start: int, since: int)
  {
    var span := 4 * call.pollInterval;
    && x.retxLeft <= RETX_LIMIT
    && start + call.timeout <= x.deadline <= start + call.timeout + |x.indications| * span
    && x.deadline <= since + call.timeout
    && start + x.polls * call.pollInterval <= since
    && (x.polls > 0 ==> start + (x.polls - 1) * call.pollInterval <= x.deadline)
  }

  lemma BudgetInformation(call: Call, x: Xch, ns: seqno, payload: bytes, at: int, start: int)
    requires Budgeted(call, x, start, at) && call.pollInterval >= 0
    ensures var y := OnInformation(call, x, ns, payload, at);
            Budgeted(call, y, start, at) && y.polls == x.polls && y.retxLeft == x.retxLeft && y.deadline >= x.deadline
  {
    hide Next;
    var span, k := 4 * call.pollInterval, |x.indications|;
    assert (k + 1) * span == k * span + span;
    var y := OnInformation(call, x, ns, payload, at);
    assert |y.indications| == k || |y.indications| == k + 1;
  }

  lemma BudgetFrame(call: Call, x: Xch, f: Timed, start: int, since: int)
    requires Budgeted(call, x, start, since) && since <= f.at && call.pollInterval >= 0
    ensures var y := OnFrame(call, x, f);
            Budgeted(call, y, start, f.at) && y.polls == x.polls && y.retxLeft <= x.retxLeft && y.deadline >= x.deadline
  {
    hide KindOf, NrOf, NsOf, WithoutPf, OnInformation;
    if f.frame.addr == call.addr && KindOf(f.frame.ctrl) == I {
      var y := ApplyAck(NoteMissing(x, f.frame.ctrl), f.frame.ctrl);
      BudgetInformation(call, y, NsOf(f.frame.ctrl), f.frame.payload, f.at, start);
    }
  }

  lemma {:induction false} BudgetFrames(call: Call, x: Xch, frames: seq<Timed>, start: int, since: int, until: int)
    requires Budgeted(call, x, start, since) && FramesClocked(frames, since, until) && call.pollInterval >= 0
    ensures var y := OnFrames(call, x, frames);
            && Budgeted(call, y, start, until) && y.polls == x.polls && y.retxLeft <= x.retxLeft
            && y.deadline >= x.deadline
    decreases |frames|
  {
    hide OnFrame;
    if frames == [] {
    } else if x.outcome.Running? {
      BudgetFrame(call, x, frames[0], start, since);
      BudgetFrames(call, OnFrame(call, x, frames[0]), frames[1..], start, frames[0].at, until);
    } else {
      LaterStill(frames, since, until);
    }
  }

  lemma {:induction false} LaterStill(frames: seq<Timed>, since: int, until: int)
    requires FramesClocked(frames, since, until)
    ensures since <= until
  {
    if frames != [] { LaterStill(frames[1..], frames[0].at, until); }
  }

  /** Only these four parts of an exchange are budgeted. */
  lemma BudgetSame(call: Call, x: Xch, y: Xch, start: int, since: int)
    requires Budgeted(call, x, start, since) && y.retxLeft <= x.retxLeft
    requires y.deadline == x.deadline && y.indications == x.indications && y.polls == x.polls
    ensures Budgeted(call, y, start, since)
  {}

  lemma BudgetPoll(call: Call, x: Xch, y: Xch, now: int, start: int)
    requires Budgeted(call, x, start, now) && call.pollInterval >= 0 && now <= x.deadline
    requires y.retxLeft == x.retxLeft && y.deadline == x.deadline && y.indications == x.indications
    requires y.polls == x.polls + 1
    ensures Budgeted(call, y, start, now + call.pollInterval)
  {
    assert (x.polls + 1) * call.pollInterval == x.polls * call.pollInterval + call.pollInterval;
  }

  lemma BudgetAfterBatch(call: Call, x: Xch, now: int, start: int)
    requires Budgeted(call, x, start, now) && x.outcome.Running? && call.pollInterval >= 0
    ensures var y := AfterBatch(call, x, now);
            && Budgeted(call, y, start, now + (if y.polls > x.polls then call.pollInterval else 0))
            && y.polls + RETX_LIMIT - y.retxLeft
                 >= x.polls + RETX_LIMIT - x.retxLeft + (if y.outcome.Running? then 1 else 0)
            && y.polls <= x.polls + 1 && y.deadline == x.deadline
  {
    hide Budgeted;
    var y := AfterBatch(call, x, now);
    if y.polls > x.polls {
      BudgetPoll(call, x, y, now, start);
    } else {
      BudgetSame(call, x, y, start, now);
    }
  }

  /** The deadline only ever moves out, by four poll intervals per report, and never further than the
      timeout from the present; every pass that neither ends the exchange nor polls uses up a resend. */
  lemma {:induction false} PollBudget(call: Call, x: Xch, passes: seq<Pass>, start: int, since: int)
    returns (reached: int)
    requires Budgeted(call, x, start, since) && Clocked(call, x, passes, since) && call.pollInterval >= 0
    ensures var y := Run(call, x, passes);
            && reached >= since && Budgeted(call, y, start, reached) && y.deadline >= x.deadline
            && (y.outcome.Running? ==>
                  |passes| + x.polls + RETX_LIMIT - x.retxLeft <= y.polls + RETX_LIMIT - y.retxLeft)
    decreases |passes|
  {
    hide OnFrames, AfterBatch, Budgeted;
    reached := since;
    if passes != [] && x.outcome.Running? {
      var p := passes[0];
      var y := OnFrames(call, x, p.frames);
      BudgetFrames(call, x, p.frames, start, since, p.now);
      LaterStill(p.frames, since, p.now);
      var z := OnPass(call, x, p);
      if y.outcome.Running? { BudgetAfterBatch(call, y, p.now, start); }
      reached := PollBudget(call, z, passes[1..], start, p.now + (if z.polls > x.polls then call.pollInterval else 0));
    }
  }

  lemma Dividing(n: int, k: int, timeout: int, interval: int)
    requires interval > 0 && (n - 1) * interval <= timeout + k * (4 * interval)
    ensures n <= 1 + timeout / interval + 4 * k
  {
    var m, q := n - 1 - 4 * k, timeout / interval;
    assert m * interval == (n - 1) * interval - k * (4 * interval);
    Quotient(m, q, timeout, interval);
  }

  lemma Quotient(m: int, q: int, timeout: int, interval: int)
    requires interval > 0 && m * interval <= timeout && q == timeout / interval
    ensures m <= q
  {
    assert timeout < (q + 1) * interval;
    ProductLess(m, q + 1, interval);
  }

  lemma ProductLess(a: int, b: int, c: int)
    requires c > 0 && a * c < b * c
    ensures a < b
  {
    assert (b - a) * c > 0;
  }

  /** An exchange that is handed k reports polls at most 1 + timeout/interval + 4k times, and is over
      after at most three passes more than that. */
  lemma ExchangeTerminates(call: Call, from: From, stats: Stats, start: int, passes: seq<Pass>)
    requires call.pollInterval > 0 && call.timeout >= 0
    requires Clocked(call, Start(call, from, stats, start), passes, start)
    ensures var x := Run(call, Start(call, from, stats, start), passes);
            var bound := 1 + call.timeout / call.pollInterval + 4 * |x.indications|;
            x.polls <= bound && (|passes| > bound + 3 ==> !x.outcome.Running?)
  {
    var x := Start(call, from, stats, start);
    var reached := PollBudget(call, x, passes, start, start);
    var y := Run(call, x, passes);
    if y.polls > 0 {
      Dividing(y.polls, |y.indications|, call.timeout, call.pollInterval);
    }
  }
}
