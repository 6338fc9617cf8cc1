/** What the drain after an acknowledged timeout achieves: exactly when the next command can still be answered
    with what the device owes to the one given up. */
module Quarantine {
  import opened Bits
  import opened Control
  import opened Link
  import opened Lockstep
  import opened Agreement
  import opened JointRuns
  import opened Hazards
  import opened Watching

  /** While the worker drains, it takes frames; the device and the lines do as they please. */
  ghost predicate Draining(steps: seq<Step>)
  {
    forall step | step in steps ::
      || (step.IdleTakes? && step.drain) || step.Answers?
      || step.LoseCommand? || step.RepeatCommand? || step.LoseReply? || step.RepeatReply?
  }

  /** The device is still at work on an answer the call would take, or still offers one not taken. */
  ghost predicate StillOwes(s: System, router: Router)
  {
    || (s.sec.pending.Some? && router(s.sec.pending.value) == Accept)
    || (s.sec.out.Some? && s.pos < |s.stream| && router(s.sec.out.value) == Accept)
  }

  lemma IdleStep(s: System, step: Step)
    requires s.mode.Idle? && Enabled(s, step) && Draining([step])
    ensures var t := Apply(s, step); t.mode.Idle? && t.mode.vs == s.mode.vs && t.doubt == s.doubt
  {
    hide SecondaryHears, KindOf, NsOf, Next, PriSees;
    assert step in [step];
    if step.Answers? { AnswersLeaveMode(s, step.choice); }
  }

  lemma {:induction false} StaysIdle(s: System, steps: seq<Step>, t: System)
    requires s.mode.Idle? && Runs(s, steps, t) && Draining(steps)
    ensures t.mode.Idle? && t.mode.vs == s.mode.vs && t.doubt == s.doubt
    decreases |steps|
  {
    hide Enabled, Apply;
    if steps != [] {
      IdleStep(s, steps[0]);
      StaysIdle(Apply(s, steps[0]), steps[1..], t);
    }
  }

  /** With nothing left on the line, what is owed is what the device holds. */
  lemma OwedByTheDevice(t: System, router: Router)
    requires Inv(t) && t.mode.Idle? && t.s2p == []
    ensures CanDeliver(t) && MayAnswer(t, router) <==> Released(t) <= t.pos && StillOwes(t, router)
  {
    hide Commands, Owed, PrimaryCounts;
    if Released(t) <= t.pos && t.sec.out.Some? && t.pos < |t.stream| {
      assert t.stream[t.pos] == t.sec.out.value;
    }
  }

  /** The drain is over when a read is empty. From then on the next command can return before the device has heard
      it if and only if the device holds an answer it would take, at work or on offer, and has not let go of an
      I-frame ahead of V(R). */
  lemma QuarantineExactly(s: System, steps: seq<Step>, t: System, call: Call)
    requires Inv(s) && !s.doubt && s.mode.Idle? && Runs(s, steps, t) && Draining(steps) && t.s2p == []
    requires call.addr == t.addr && RefusesReports(call.router)
    ensures t.mode.Idle?
    ensures OwesAnswer(t, call) <==> Released(t) <= t.pos && StillOwes(t, call.router)
    ensures call.timeout >= 0 && call.pollInterval >= 0 ==>
              ((exists now, more, u, at :: ReturnsEarly(t, call, now, more, u, at))
               <==> Released(t) <= t.pos && StillOwes(t, call.router))
  {
    hide Inv, Runs, ReturnsEarly, RetapRouter, MayAnswer, CanDeliver, StillOwes, Released;
    KeepsRun(s, steps, t);
    StaysIdle(s, steps, t);
    OwedByTheDevice(t, call.router);
    EarlyReturnExactly(t, call, 0, 0);
  }

  // ----- a drain that reads nothing -----

  /** Nothing on its way to the device, and no I-frame on its way back. */
  ghost predicate Quiet(s: System)
  {
    s.p2s == [] && forall i | 0 <= i < |s.s2p| :: !s.s2p[i].Info?
  }

  lemma QuietStep(s: System, step: Step)
    requires Inv(s) && s.mode.Idle? && Quiet(s) && Enabled(s, step) && Draining([step])
    ensures var t := Apply(s, step); Quiet(t) && t == s.(s2p := t.s2p)
  {
    hide Commands, Owed, Counts, PrimaryCounts, ReplyBefore, KindOf, NsOf, IdleHears;
    assert step in [step];
    if step.IdleTakes? {
      assert ReplyOk(s, s.s2p[0]);
      IdleIgnores(s, true);
    }
  }

  /** In Normal Response Mode a device that is not polled says nothing, and the drain begins by listening: the
      device stands where it did, and owes what it owed. */
  lemma {:induction false} SilentDrain(s: System, steps: seq<Step>, t: System, call: Call)
    requires Inv(s) && s.mode.Idle? && Quiet(s) && Runs(s, steps, t) && Draining(steps)
    ensures t == s.(s2p := t.s2p) && Quiet(t)
    ensures OwesAnswer(t, call) <==> OwesAnswer(s, call)
    decreases |steps|
  {
    hide Inv, Enabled, Apply, MayAnswer;
    if steps != [] {
      var u := Apply(s, steps[0]);
      QuietStep(s, steps[0]);
      KeepsStep(s, steps[0]);
      SilentDrain(u, steps[1..], t, call);
      assert OwesAnswer(u, call) <==> OwesAnswer(s, call) by { SameOwed(s, u, call); }
    }
  }

  lemma SameOwed(s: System, t: System, call: Call)
    requires Quiet(s) && Quiet(t) && t == s.(s2p := t.s2p)
    ensures OwesAnswer(t, call) <==> OwesAnswer(s, call)
  {}

  /** The link as a drain finds it. */
  function Watched(s: System): Watch
    requires s.mode.Idle?
  {
    Watch(s.mode.vr, [], [], true)
  }

  lemma RefusesItsReports(message: bytes)
    ensures RefusesReports(RetapRouter(message))
  {}

  /** It happens, with every request: it is acknowledged and times out; the drain's first read is empty and ends it
      with the link as it was; and however long the worker went on listening, the device would still owe the answer.
      The same request sent next, whenever that is, can return that answer, on a schedule of its loop, before the
      device has heard it, and leave V(S) ahead. */
  lemma QuarantineFails(message: bytes, response: bytes)
    returns (s: System, call: Call, steps: seq<Step>, t: System)
    requires RetapRouter(message)(response) == Accept
    ensures Connected(s) && GivesUpAt(s, call, steps, 3050, true, t) && t.mode.Idle?
    ensures call == NewCall(t.addr, message, 3000, 50)
    ensures forall before, end :: DrainAll(t.addr, Watched(t), [Read(before, [])], end) == Watched(t)
    ensures forall more, v | Runs(t, more, v) && Draining(more) :: OwesAnswer(v, call)
    ensures forall begun :: AnsweredBefore(t, call, begun, call.pollInterval)
  {
    hide Inv, Runs, ReturnsEarly, OwesAnswer, Draining, AnsweredBefore, GivesUpAt, RetapRouter, RefusesReports;
    s, call, steps, t := LateAnswerHappens(message, response);
    forall more, v | Runs(t, more, v) && Draining(more) ensures OwesAnswer(v, call) {
      SilentDrain(t, more, v, call);
    }
    RefusesItsReports(message);
    forall begun ensures AnsweredBefore(t, call, begun, call.pollInterval) {
      EarlyReturnExactly(t, call, begun, call.pollInterval);
    }
  }
}
