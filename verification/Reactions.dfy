/** What an exchange does with each thing that can come, in the numbers of the wire and the clock: which octets are
    an answer, a report or an end of the link, when the request goes out again, and when time is up. */
module Reactions {
  import opened Bits
  import opened Framing
  import opened Control
  import opened Link
  import opened Exchange

  // ----- on the wire -----

  /** Requests and acknowledgements as octets. */
  lemma SentOctets(addr: byte, ns: seqno, nr: seqno, message: bytes, poll: bool)
    ensures ToFrame(SentI(addr, ns, nr, message)) == Frame(addr, 16 + 2 * ns + 32 * nr, message)
    ensures ToFrame(SentRr(addr, nr, poll)) == Frame(addr, 1 + (if poll then 16 else 0) + 32 * nr, [])
  {}

  /** Only a UA from the station called, with the final bit or without, is an answer to SNRM. */
  lemma AnswersSnrm(f: Frame, addr: byte)
    ensures IsUaFrom(f, addr) <==> f.addr == addr && (f.ctrl == 0x63 || f.ctrl == 0x73)
  {
    hide WithoutPf;
    UnnumberedCodes(f.ctrl);
  }

  // ----- I-frames -----

  predicate CarriesReport(payload: bytes)
  {
    payload != [] && (payload[0] == 0x07 || payload[0] == 0x85)
  }

  /** The payload carries the procedure code asked for, if one was. */
  predicate Answers(message: bytes, payload: bytes)
  {
    payload != [] && !CarriesReport(payload) && (message == [] || payload[0] == message[0])
  }

  lemma Verdicts(message: bytes, payload: bytes)
    ensures RetapRouter(message)(payload) == Accept <==> Answers(message, payload)
    ensures RetapRouter(message)(payload) == Indication <==> CarriesReport(payload)
  {}

  /** An I-frame of the peer is taken when its N(S) is V(R). What comes of it is settled by its first octet: an answer
      ends the exchange, a report is handed on and moves the deadline out, anything else is dropped; the answer is
      acknowledged without asking for more, the others with a poll. */
  lemma InSequence(call: Call, message: bytes, x: Xch, c: byte, payload: bytes, at: int)
    requires call.router == RetapRouter(message) && x.outcome == Running
    requires c % 2 == 0 && c / 2 % 8 == x.vr
    ensures
      var y := OnFrame(call, x, Timed(Frame(call.addr, c, payload), at));
      var answer, report := Answers(message, payload), CarriesReport(payload);
      && y.vr == (x.vr + 1) % 8 && y.taken == x.taken + [payload] && y.connected == x.connected
      && y.writes == x.writes + [SentRr(call.addr, (x.vr + 1) % 8, !answer)]
      && y.outcome == (if answer then Returned(payload) else Running)
      && y.indications == x.indications + (if report then [payload] else [])
      && y.deadline == (if !report then x.deadline
                        else if x.deadline + 4 * call.pollInterval <= at + call.timeout then
                          x.deadline + 4 * call.pollInterval
                        else at + call.timeout)
      && y.acked == (x.acked || c / 32 == (x.sentNs + 1) % 8)
      && y.vs == (if !x.acked && (answer || y.acked) then (x.sentNs + 1) % 8 else x.vs)
      && y.stats == (if answer || report then x.stats else x.stats.(unexpected := x.stats.unexpected + 1))
  {
    hide KindOf, NsOf, NrOf, RetapRouter, ApplyAck, NoteMissing, OnInformation, Answers, CarriesReport;
    ControlByte(c);
    FieldsOf(c);
    NumbersHeeded(x, c);
    Routed(call, message, ApplyAck(NoteMissing(x, c), c), payload, at);
  }

  lemma NumbersHeeded(x: Xch, c: byte)
    ensures
      var y := ApplyAck(NoteMissing(x, c), c);
      && y.acked == (x.acked || c / 32 == (x.sentNs + 1) % 8) && y.sentNs == x.sentNs
      && y.vs == (if y.acked && !x.acked then (x.sentNs + 1) % 8 else x.vs)
      && y.vr == x.vr && y.taken == x.taken && y.connected == x.connected && y.writes == x.writes
      && y.outcome == x.outcome && y.indications == x.indications && y.deadline == x.deadline && y.stats == x.stats
  {
    hide NrOf;
    FieldsOf(c);
  }

  lemma Routed(call: Call, message: bytes, x: Xch, payload: bytes, at: int)
    requires call.router == RetapRouter(message) && x.outcome == Running
    ensures
      var y := OnInformation(call, x, x.vr, payload, at);
      var answer, report := Answers(message, payload), CarriesReport(payload);
      && y.vr == (x.vr + 1) % 8 && y.taken == x.taken + [payload] && y.connected == x.connected
      && y.writes == x.writes + [SentRr(call.addr, (x.vr + 1) % 8, !answer)]
      && y.outcome == (if answer then Returned(payload) else Running)
      && y.indications == x.indications + (if report then [payload] else [])
      && y.deadline == (if !report then x.deadline
                        else if x.deadline + 4 * call.pollInterval <= at + call.timeout then
                          x.deadline + 4 * call.pollInterval
                        else at + call.timeout)
      && y.acked == x.acked && y.vs == (if answer && !x.acked then (x.sentNs + 1) % 8 else x.vs)
      && y.stats == (if answer || report then x.stats else x.stats.(unexpected := x.stats.unexpected + 1))
  {
    hide RetapRouter, Answers, CarriesReport;
    Verdicts(message, payload);
    assert x.indications + [] == x.indications;
  }

  lemma FieldsOf(c: byte)
    ensures NsOf(c) == c / 2 % 8 && NrOf(c) == c / 32
  {}

  /** Any other N(S) is out of sequence: nothing is taken, and V(R) is said again with a poll. */
  lemma OutOfSequence(call: Call, x: Xch, c: byte, payload: bytes, at: int)
    requires x.outcome == Running && c % 2 == 0 && c / 2 % 8 != x.vr
    ensures
      var y := OnFrame(call, x, Timed(Frame(call.addr, c, payload), at));
      && y.vr == x.vr && y.taken == x.taken && y.indications == x.indications && y.outcome == Running
      && y.writes == x.writes + [SentRr(call.addr, x.vr, true)] && y.deadline == x.deadline
      && y.stats == x.stats.(dupI := x.stats.dupI + 1)
  {
    hide KindOf, NsOf, NrOf;
    ControlByte(c);
    FieldsOf(c);
  }

  /** A request is answered by whatever comes in sequence with its procedure code: the whole exchange, from the
      first write to the return. */
  lemma AnswerReturned(call: Call, from: From, stats: Stats, start: int, c: byte, payload: bytes, at: int, now: int)
    requires call.router == RetapRouter(call.message)
    requires payload != [] && payload[0] != 0x07 && payload[0] != 0x85
    requires call.message == [] || payload[0] == call.message[0]
    requires c % 2 == 0 && c / 2 % 8 == from.vr
    ensures
      var x := Run(call, Start(call, from, stats, start), [Pass([Timed(Frame(call.addr, c, payload), at)], now)]);
      && x.outcome == Returned(payload) && x.taken == [payload] && x.indications == []
      && x.vs == (from.vs + 1) % 8 && x.vr == (from.vr + 1) % 8
      && x.writes == [SentI(call.addr, from.vs, from.vr, call.message), SentRr(call.addr, (from.vr + 1) % 8, false)]
  {
    hide OnFrame;
    var f := Timed(Frame(call.addr, c, payload), at);
    InSequence(call, call.message, Start(call, from, stats, start), c, payload, at);
    OneFrameRead(call, Start(call, from, stats, start), f, now);
  }

  /** A read of one frame. */
  lemma OneFrameRead(call: Call, x: Xch, f: Timed, now: int)
    requires x.outcome == Running
    ensures
      var y := OnFrame(call, x, f);
      Run(call, x, [Pass([f], now)]) == if y.outcome.Running? then AfterBatch(call, y, now) else y
  {
    hide OnFrame, AfterBatch;
    var y := OnFrame(call, x, f);
    assert [f][1..] == [];
    assert OnFrames(call, x, [f]) == OnFrames(call, y, []) == y;
    OnePass(call, x, Pass([f], now));
  }

  lemma OnePass(call: Call, x: Xch, p: Pass)
    requires x.outcome == Running
    ensures Run(call, x, [p]) == OnPass(call, x, p)
  {
    hide OnPass;
    RunStep(call, x, [p]);
    assert [p][1..] == [];
    RunStops(call, OnPass(call, x, p), []);
  }

  // ----- other frames -----

  /** A frame of another station is counted and nothing else. */
  lemma Foreign(call: Call, x: Xch, f: Timed)
    requires f.frame.addr != call.addr
    ensures OnFrame(call, x, f) == x.(stats := x.stats.(foreign := x.stats.foreign + 1))
  {}

  /** DM and FRMR end the link, whatever stands in the frame; no other U-frame does anything. */
  lemma LinkEnds(call: Call, x: Xch, c: byte, payload: bytes, at: int)
    requires x.outcome == Running && c % 4 == 3
    ensures
      var y := OnFrame(call, x, Timed(Frame(call.addr, c, payload), at));
      if c == 0x0F || c == 0x1F || c == 0x87 || c == 0x97 then
        && y.outcome == LinkReset(c == 0x0F || c == 0x1F, if c == 0x0F || c == 0x1F then [] else payload)
        && y.vs == 0 && y.vr == 0 && !y.connected && y.writes == x.writes && y.taken == x.taken
        && y.stats == x.stats.(linkResets := x.stats.linkResets + 1)
      else y == x
  {
    hide KindOf, WithoutPf;
    ControlByte(c);
    UnnumberedCodes(c);
  }

  /** So an exchange that reads one of them from its peer is over, wherever it stands in the read. */
  lemma ResetEnds(call: Call, x: Xch, before: seq<Timed>, f: Timed, after: seq<Timed>, now: int)
    requires x.outcome == Running && f.frame.addr == call.addr && f.frame.ctrl in {0x0F, 0x1F, 0x87, 0x97}
    ensures var y := Run(call, x, [Pass(before + [f] + after, now)]); y.outcome.LinkReset? || y.outcome.Returned?
    ensures OnFrames(call, x, before).outcome == Running ==>
              Run(call, x, [Pass(before + [f] + after, now)]).outcome.LinkReset?
  {
    hide OnFrame, AfterBatch;
    ResetInRead(call, x, before, f, after);
    OnePass(call, x, Pass(before + [f] + after, now));
  }

  lemma {:induction false} ResetInRead(call: Call, x: Xch, before: seq<Timed>, f: Timed, after: seq<Timed>)
    requires x.outcome == Running && f.frame.addr == call.addr && f.frame.ctrl in {0x0F, 0x1F, 0x87, 0x97}
    ensures var y := OnFrames(call, x, before + [f] + after); y.outcome.LinkReset? || y.outcome.Returned?
    ensures OnFrames(call, x, before).outcome == Running ==>
              OnFrames(call, x, before + [f] + after).outcome.LinkReset?
    decreases |before|
  {
    hide OnFrame;
    var frames := before + [f] + after;
    if before == [] {
      assert frames[0] == f;
      LinkEnds(call, x, f.frame.ctrl, f.frame.payload, f.at);
      Ended(call, OnFrame(call, x, f), frames[1..]);
    } else {
      var y := OnFrame(call, x, before[0]);
      assert frames[0] == before[0] && frames[1..] == before[1..] + [f] + after;
      NoTimeout(call, x, before[0]);
      if y.outcome.Running? {
        ResetInRead(call, y, before[1..], f, after);
      } else {
        Ended(call, y, frames[1..]);
        Ended(call, y, before[1..]);
      }
    }
  }

  lemma Ended(call: Call, x: Xch, frames: seq<Timed>)
    requires !x.outcome.Running?
    ensures OnFrames(call, x, frames) == x
  {}

  /** Frames do not make time pass. */
  lemma NoTimeout(call: Call, x: Xch, f: Timed)
    requires x.outcome == Running
    ensures !OnFrame(call, x, f).outcome.TimedOut?
  {
    hide KindOf, NsOf, NrOf, WithoutPf;
  }

  /** RR, RNR, REJ and SREJ by their octets: an N(R) one past the request acknowledges it and moves V(S), the request's
      own N(S) asks for it; REJ and SREJ bring it again at once while it is not acknowledged and repeats are left. */
  lemma Supervisory(call: Call, x: Xch, c: byte, payload: bytes, at: int)
    requires x.outcome == Running && c % 4 == 1
    ensures
      var y := OnFrame(call, x, Timed(Frame(call.addr, c, payload), at));
      var acked := x.acked || c / 32 == (x.sentNs + 1) % 8;
      var again := c % 16 in {9, 13} && !acked && x.retxLeft > 0;
      && y.acked == acked && y.vs == (if acked && !x.acked then (x.sentNs + 1) % 8 else x.vs)
      && y.missing == (x.missing || c / 32 == x.sentNs)
      && y.writes == x.writes + (if again then [SentI(call.addr, x.sentNs, x.sentNr, call.message)] else [])
      && y.retxLeft == (if again then x.retxLeft - 1 else x.retxLeft)
      && y.outcome == Running && y.vr == x.vr && y.taken == x.taken && y.deadline == x.deadline && y.retxAt == x.retxAt
      && y.sentNs == x.sentNs && y.sentNr == x.sentNr
      && y.stats == (if again then x.stats.(retx := x.stats.retx + 1)
                     else if c % 16 == 5 then x.stats.(rnr := x.stats.rnr + 1)
                     else x.stats)
  {
    hide KindOf, NsOf, NrOf;
    ControlByte(c);
    FieldsOf(c);
    SupervisoryKinds(c);
  }

  lemma SupervisoryKinds(c: byte)
    requires c % 4 == 1
    ensures KindOf(c) == (if c % 16 == 1 then Rr else if c % 16 == 5 then Rnr else if c % 16 == 9 then Rej else Srej)
    ensures c % 16 in {1, 5, 9, 13}
  {
    Parts(c);
  }

  // ----- the clock -----

  /** With nothing heard the first read ends in a poll, or past the timeout in giving up; never in a repeat. */
  lemma SilentRead(call: Call, from: From, stats: Stats, start: int, now: int)
    ensures
      var x := Run(call, Start(call, from, stats, start), [Pass([], now)]);
      var request := SentI(call.addr, from.vs, from.vr, call.message);
      if now > start + call.timeout then x.outcome == TimedOut(false, 0) && x.writes == [request]
      else x.outcome == Running && x.polls == 1 && x.writes == [request, SentRr(call.addr, from.vr, true)]
  {
    hide AfterBatch;
    var x := Start(call, from, stats, start);
    OnePass(call, x, Pass([], now));
    assert OnFrames(call, x, []) == x;
    PollOrGiveUp(call, x, now);
  }

  lemma PollOrGiveUp(call: Call, x: Xch, now: int)
    requires !x.missing || x.acked
    ensures var y := AfterBatch(call, x, now);
      if now > x.deadline then y == x.(outcome := TimedOut(x.acked, x.polls))
      else
        y == x.(polls := x.polls + 1, stats := x.stats.(polls := x.stats.polls + 1),
                writes := x.writes + [SentRr(call.addr, x.vr, true)])
  {}

  /** The request goes out again only when more than a second has passed since it last did on a read. */
  lemma AfterASecond(call: Call, from: From, stats: Stats, start: int, f: Timed, now: int)
    requires f.frame == Frame(call.addr, 1 + 16 + 32 * from.vs, []) && now <= start + call.timeout
    ensures
      var x := Run(call, Start(call, from, stats, start), [Pass([f], now)]);
      var request := SentI(call.addr, from.vs, from.vr, call.message);
      && x.outcome == Running && !x.acked
      && x.writes == [request] + (if now > start + 1000 then [request] else [SentRr(call.addr, from.vr, true)])
      && x.retxLeft == (if now > start + 1000 then 2 else 3)
      && x.retxAt == (if now > start + 1000 then now + 1000 else start + 1000)
      && (now > start + 1000 ==> !x.missing)
  {
    hide Run;
    var x := Start(call, from, stats, start);
    AskingRead(call, x, f, now);
    var request := SentI(call.addr, from.vs, from.vr, call.message);
    assert x.writes == [request];
  }

  /** A read of one RR whose N(R) asks for the request. */
  lemma AskingRead(call: Call, x: Xch, f: Timed, now: int)
    requires f.frame == Frame(call.addr, 1 + 16 + 32 * x.sentNs, []) && x.outcome == Running && !x.acked
    requires now <= x.deadline
    ensures
      var y := Run(call, x, [Pass([f], now)]);
      var again := now > x.retxAt && x.retxLeft > 0;
      && y.outcome == Running && !y.acked && y.sentNs == x.sentNs && y.sentNr == x.sentNr && y.deadline == x.deadline
      && y.vr == x.vr
      && y.writes == x.writes + [if again then SentI(call.addr, x.sentNs, x.sentNr, call.message)
                                 else SentRr(call.addr, x.vr, true)]
      && y.retxLeft == (if again then x.retxLeft - 1 else x.retxLeft)
      && y.retxAt == (if again then now + 1000 else x.retxAt)
      && (again ==> !y.missing)
  {
    hide OnFrame;
    var c := 1 + 16 + 32 * x.sentNs;
    assert c / 32 == x.sentNs && c % 4 == 1 && c % 16 == 1;
    Supervisory(call, x, c, [], f.at);
    OneFrameRead(call, x, f, now);
  }

  /** After a repeat, silence brings no other, however long it lasts. */
  lemma OneRepeatPerAsking(call: Call, x: Xch, now: int, passes: seq<Pass>)
    requires x.outcome == Running && Requests(AfterBatch(call, x, now).writes) > Requests(x.writes)
    requires forall p | p in passes :: Silent(call, x, p.frames)
    ensures
      Requests(Run(call, AfterBatch(call, x, now), passes).writes) == Requests(AfterBatch(call, x, now).writes)
  {
    hide Requests, Silent;
    ResendAfterRead(call, x, now);
    var y := AfterBatch(call, x, now);
    assert !y.missing && y.sentNs == x.sentNs;
    forall p | p in passes ensures Silent(call, y, p.frames) { SilentSameNs(call, x, y, p.frames); }
    SilenceNeverResends(call, y, passes);
  }

  /** A device that keeps asking, more than a second apart, gets the request four times in all, and polls from
      then on. */
  lemma FourTimes(call: Call, from: From, stats: Stats, start: int, f: Timed, now: seq<int>)
    requires f.frame == Frame(call.addr, 1 + 16 + 32 * from.vs, []) && |now| == 4
    requires now[0] > start + 1000 && now[1] > now[0] + 1000 && now[2] > now[1] + 1000 && now[3] > now[2] + 1000
    requires now[3] <= start + call.timeout
    ensures
      var x := Start(call, from, stats, start);
      var request := SentI(call.addr, from.vs, from.vr, call.message);
      Run(call, x, [Pass([f], now[0]), Pass([f], now[1]), Pass([f], now[2]), Pass([f], now[3])]).writes
      == [request, request, request, request, SentRr(call.addr, from.vr, true)]
  {
    hide OnPass;
    var x := Start(call, from, stats, start);
    var p := [Pass([f], now[0]), Pass([f], now[1]), Pass([f], now[2]), Pass([f], now[3])];
    AskingRead(call, x, f, now[0]);
    var y := Run(call, x, [p[0]]);
    NextPass(call, x, p);
    AskingRead(call, y, f, now[1]);
    var z := Run(call, y, [p[1]]);
    NextPass(call, y, p[1..]);
    AskingRead(call, z, f, now[2]);
    var u := Run(call, z, [p[2]]);
    NextPass(call, z, p[2..]);
    AskingRead(call, u, f, now[3]);
    assert p[1..][0] == p[1] && p[2..][0] == p[2] && p[1..][1..] == p[2..] && p[2..][1..] == [p[3]];
  }

  lemma NextPass(call: Call, x: Xch, passes: seq<Pass>)
    requires passes != [] && x.outcome == Running
    ensures Run(call, x, passes) == Run(call, Run(call, x, [passes[0]]), passes[1..])
  {
    hide OnPass;
    RunStep(call, x, passes);
    OnePass(call, x, passes[0]);
  }
}
