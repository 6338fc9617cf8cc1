/** The runs the loop of one exchange can have: a read returns all its frames before the first is handled, an
    empty read takes its time, and the exchange sleeps after every poll. */
module Schedules {
  import opened Link
  import opened Secondary
  import opened Wrappers
  import opened Lockstep
  import opened Agreement
  import opened JointRuns

  /** Where the loop is: how many frames of the present read are still to be handled, none before its first, and
      the earliest the clock can read. */
  datatype Beat = Beat(left: Option<nat>, since: int)

  /** What is read is no longer on the line to be lost or repeated, and what comes later waits for the next read. */
  predicate MayStep(b: Beat, step: Step, pause: int)
  {
    match step
    case Hears(at) => b.left != Some(0) && b.since <= at
    case Ticks(now) => b.since + (if b.left.None? then pause else 0) <= now
    case LoseReply(i) => b.left.None? || b.left.value <= i
    case RepeatReply(i) => b.left.None? || b.left.value <= i
    case Start(_, _) => false
    case Polls(_) => false
    case IdleTakes(_) => false
    case Answers(_) => true
    case LoseCommand(_) => true
    case RepeatCommand(_) => true
  }

  function NextBeat(s: System, b: Beat, step: Step, pause: int): Beat
    requires MayStep(b, step, pause)
  {
    match step
    case Hears(at) =>
      Beat(Some(if b.left.Some? then b.left.value - 1 else if s.s2p == [] then 0 else |s.s2p| - 1), at)
    case Ticks(now) => Beat(None, if s.mode.Busy? && Resends(Ticked(s, now).writes) then now else now + pause)
    case _ => b
  }

  /** A run of one exchange, once it has begun, that keeps to this; `pause` is the polling interval. */
  ghost predicate Schedule(s: System, b: Beat, steps: seq<Step>, t: System, c: Beat, pause: int)
    decreases |steps|
  {
    if steps == [] then s == t && b == c
    else
      && s.mode.Busy? && Enabled(s, steps[0]) && MayStep(b, steps[0], pause)
      && Schedule(Apply(s, steps[0]), NextBeat(s, b, steps[0], pause), steps[1..], t, c, pause)
  }

  lemma {:induction false} ScheduleRuns(s: System, b: Beat, steps: seq<Step>, t: System, c: Beat, pause: int)
    requires Schedule(s, b, steps, t, c, pause)
    ensures Runs(s, steps, t)
    decreases |steps|
  {
    hide Enabled, Apply, MayStep, NextBeat;
    if steps != [] {
      ScheduleRuns(Apply(s, steps[0]), NextBeat(s, b, steps[0], pause), steps[1..], t, c, pause);
    }
  }

  /** One step more. */
  lemma {:induction false} ScheduleOn(s: System, b: Beat, steps: seq<Step>, t: System, c: Beat, pause: int, step: Step)
    requires Schedule(s, b, steps, t, c, pause) && t.mode.Busy? && Enabled(t, step) && MayStep(c, step, pause)
    ensures Schedule(s, b, steps + [step], Apply(t, step), NextBeat(t, c, step, pause), pause)
    decreases |steps|
  {
    hide Enabled, Apply, MayStep, NextBeat;
    if steps == [] {
      assert [step][1..] == [] && steps + [step] == [step];
      ScheduleEnds(Apply(t, step), NextBeat(t, c, step, pause), pause);
    } else {
      assert (steps + [step])[1..] == steps[1..] + [step];
      ScheduleOn(Apply(s, steps[0]), NextBeat(s, b, steps[0], pause), steps[1..], t, c, pause, step);
    }
  }

  lemma ScheduleEnds(s: System, b: Beat, pause: int)
    ensures Schedule(s, b, [], s, b, pause)
  {}

  /** One step more on a run. */
  lemma {:induction false} RunsOn(s: System, steps: seq<Step>, t: System, step: Step)
    requires Runs(s, steps, t) && Enabled(t, step)
    ensures Runs(s, steps + [step], Apply(t, step))
    decreases |steps|
  {
    hide Enabled, Apply;
    if steps == [] {
      assert [step][1..] == [] && steps + [step] == [step];
      assert Runs(Apply(t, step), [], Apply(t, step));
    } else {
      assert (steps + [step])[1..] == steps[1..] + [step];
      RunsOn(Apply(s, steps[0]), steps[1..], t, step);
    }
  }

  /** The frames of the first read, with one more before them. */
  function Preceded(f: Timed, script: seq<Pass>): seq<Pass>
  {
    if script == [] then [Pass([f], 0)] else [Pass([f] + script[0].frames, script[0].now)] + script[1..]
  }

  lemma PrecededRest(f: Timed, script: seq<Pass>)
    requires script != []
    ensures var p := Preceded(f, script);
      && p != [] && p[0].frames != [] && p[0].frames[0] == f
      && [Pass(p[0].frames[1..], p[0].now)] + p[1..] == script
  {
    var p := Preceded(f, script);
    assert p[0].frames[1..] == script[0].frames && p[1..] == script[1..];
  }

  /** A schedule that ends with its exchange, or between two reads of it, is the loop of `exchange` on some script
      of reads: so it ends where that loop does (ExchangeIsRun). */
  lemma {:induction false} ScheduleIsPlayed(s: System, b: Beat, steps: seq<Step>, t: System, c: Beat, pause: int)
    returns (script: seq<Pass>)
    requires s.mode.Busy? && Schedule(s, b, steps, t, c, pause) && (t.mode.Busy? ==> c.left.None?)
    ensures Plays(s, steps, script, t) && (b.left.Some? ==> script != [])
    decreases |steps|
  {
    hide Enabled, PrimaryHears, PrimaryTicks, Preceded, PriSees;
    if steps == [] {
      script := [];
    } else {
      var u, d := Apply(s, steps[0]), NextBeat(s, b, steps[0], pause);
      script := [];
      if u.mode.Busy? { script := ScheduleIsPlayed(u, d, steps[1..], t, c, pause); }
      if steps[0].Hears? {
        HearsHead(s, steps[0].at);
        var f := Timed(PriSees(s.addr, s.s2p[0]), steps[0].at);
        if u.mode.Busy? { PrecededRest(f, script); } else { PrecededNone(f); }
        script := Preceded(f, script);
      } else if steps[0].Ticks? {
        script := [Pass([], steps[0].now)] + script;
      }
    }
  }

  lemma PrecededNone(f: Timed)
    ensures Preceded(f, []) == [Pass([f], 0)]
  {}

  // ----- the ways a schedule goes on -----

  lemma LosesCommand(s: System, b: Beat, steps: seq<Step>, t: System, c: Beat, pause: int, i: nat)
    requires Schedule(s, b, steps, t, c, pause) && t.mode.Busy? && i < |t.p2s|
    ensures Schedule(s, b, steps + [LoseCommand(i)], t.(p2s := Without(t.p2s, i)), c, pause)
  {
    hide Schedule;
    ScheduleOn(s, b, steps, t, c, pause, LoseCommand(i));
  }

  lemma LosesReply(s: System, b: Beat, steps: seq<Step>, t: System, c: Beat, pause: int, i: nat)
    requires Schedule(s, b, steps, t, c, pause) && t.mode.Busy? && c.left.None? && i < |t.s2p|
    ensures Schedule(s, b, steps + [LoseReply(i)], t.(s2p := Without(t.s2p, i)), c, pause)
  {
    hide Schedule;
    ScheduleOn(s, b, steps, t, c, pause, LoseReply(i));
  }

  lemma {:induction false} CommandsLost(s: System, b: Beat, steps: seq<Step>, t: System, c: Beat, pause: int)
    returns (more: seq<Step>)
    requires Schedule(s, b, steps, t, c, pause) && t.mode.Busy?
    ensures Schedule(s, b, more, t.(p2s := []), c, pause)
    decreases |t.p2s|
  {
    hide Schedule;
    if t.p2s == [] {
      more := steps;
    } else {
      LosesCommand(s, b, steps, t, c, pause, 0);
      more := CommandsLost(s, b, steps + [LoseCommand(0)], t.(p2s := Without(t.p2s, 0)), c, pause);
    }
  }

  lemma {:induction false} RepliesLost(s: System, b: Beat, steps: seq<Step>, t: System, c: Beat, pause: int, k: nat)
    returns (more: seq<Step>)
    requires Schedule(s, b, steps, t, c, pause) && t.mode.Busy? && c.left.None? && k <= |t.s2p|
    ensures Schedule(s, b, more, t.(s2p := t.s2p[k..]), c, pause)
    decreases k
  {
    hide Schedule;
    if k == 0 {
      more := steps;
      assert t.s2p[0..] == t.s2p;
    } else {
      LosesReply(s, b, steps, t, c, pause, 0);
      var u := t.(s2p := Without(t.s2p, 0));
      more := RepliesLost(s, b, steps + [LoseReply(0)], u, c, pause, k - 1);
      assert u.s2p[k - 1..] == t.s2p[k..];
    }
  }

  lemma DeviceAnswers(s: System, b: Beat, steps: seq<Step>, t: System, c: Beat, pause: int, choice: Choice)
    requires Schedule(s, b, steps, t, c, pause) && t.mode.Busy? && Enabled(t, Answers(choice))
    ensures Schedule(s, b, steps + [Answers(choice)], SecondaryHears(t, choice), c, pause)
  {
    hide Schedule, SecondaryHears;
    ScheduleOn(s, b, steps, t, c, pause, Answers(choice));
  }

  /** A read of everything on the line is handled one frame at a time. */
  lemma FrameHandled(s: System, b: Beat, steps: seq<Step>, t: System, c: Beat, pause: int, at: int)
    requires Schedule(s, b, steps, t, c, pause) && Enabled(t, Hears(at)) && c.left.None? && c.since <= at
    ensures Schedule(s, b, steps + [Hears(at)], PrimaryHears(t, at), Beat(Some(|t.s2p| - 1), at), pause)
  {
    hide Schedule, PrimaryHears;
    HearsIs(t, at);
    ScheduleOn(s, b, steps, t, c, pause, Hears(at));
  }

  /** The exchange as it was, but for what it has written and how often. */
  ghost predicate SameCall(s: System, t: System)
  {
    && s.mode.Busy? && t.mode.Busy? && t.mode.call == s.mode.call
    && SameCourse(t.mode.x, s.mode.x) && t.mode.x.deadline == s.mode.x.deadline
    && t == s.(mode := t.mode, p2s := t.p2s, stale := t.stale)
  }

  /** After a read the exchange polls or asks again, if its time is not over. */
  lemma TickGoesOn(s: System, now: int)
    requires s.mode.Busy? && s.mode.x.outcome == Running && now <= s.mode.x.deadline
    ensures var t := PrimaryTicks(s, now);
      && SameCall(s, t) && |t.p2s| == |s.p2s| + 1 && s.p2s <= t.p2s
      && (now <= s.mode.x.retxAt || !s.mode.x.missing || s.mode.x.acked ==>
            && !Resends(Ticked(s, now).writes) && t.p2s == s.p2s + [Ack(s.pos, true)] && t.stale == s.stale
            && t.mode.x.retxLeft == s.mode.x.retxLeft && t.mode.x.retxAt == s.mode.x.retxAt
            && t.mode.x.missing == s.mode.x.missing)
  {
    hide Tags, Reacted;
    var x := Ticked(s, now);
    ReactedOnce(s, s.mode.call, x, [], x.writes[0]);
    assert s.taken + [] == s.taken;
  }

  /** What it then writes is lost. */
  lemma TicksUnheard(s: System, b: Beat, steps: seq<Step>, t: System, c: Beat, pause: int, now: int)
    returns (more: seq<Step>, u: System, d: Beat)
    requires Schedule(s, b, steps, t, c, pause) && MayStep(c, Ticks(now), pause) && pause >= 0
    requires t.mode.Busy? && t.mode.x.outcome == Running && now <= t.mode.x.deadline
    ensures Schedule(s, b, more, u, d, pause) && d.left.None? && d.since <= now + pause
    ensures SameCall(t, u) && u.p2s == t.p2s
    ensures now <= t.mode.x.retxAt || !t.mode.x.missing || t.mode.x.acked ==>
              && u.mode.x.retxLeft == t.mode.x.retxLeft && u.mode.x.retxAt == t.mode.x.retxAt
              && u.mode.x.missing == t.mode.x.missing && u.stale == t.stale && d.since == now + pause
  {
    hide Schedule, PrimaryTicks, Ticked, SameCourse;
    TickGoesOn(t, now);
    TicksIs(t, now);
    ScheduleOn(s, b, steps, t, c, pause, Ticks(now));
    var v := PrimaryTicks(t, now);
    d := NextBeat(t, c, Ticks(now), pause);
    LosesCommand(s, b, steps + [Ticks(now)], v, d, pause, |t.p2s|);
    more, u := steps + [Ticks(now)] + [LoseCommand(|t.p2s|)], v.(p2s := Without(v.p2s, |t.p2s|));
    assert u.p2s == t.p2s;
  }
}
