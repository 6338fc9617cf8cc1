/** What each turn of the worker does, state by state and in numbers: which command goes first and what becomes of it,
    when the port is opened, polled, kept alive and given back, and how long a failed link is left alone. */
module WorkerSteps {
  import opened Wrappers
  import opened WorkerModel
  import opened WorkerRuns

  // ----- commands -----

  /** `a` goes before `b`, or is it: by priority, least first, then by age. */
  predicate NoLater(a: Command, b: Command)
  {
    a.priority < b.priority || (a.priority == b.priority && a.id <= b.id)
  }

  lemma {:induction false} NextUpFirst(queue: seq<Command>, k: nat)
    requires k < |queue|
    ensures NoLater(queue[NextUp(queue)], queue[k])
  {
    if |queue| > 1 {
      var init := queue[..|queue| - 1];
      if k < |queue| - 1 { NextUpFirst(init, k); } else { NextUpFirst(init, NextUp(init)); }
    }
  }

  /** The command taken is in the queue, none there goes before it, and the others stay in their order. */
  lemma TakesSoonest(w: W) returns (k: nat)
    requires w.queue != []
    ensures k < |w.queue| && Take(w) == w.(head := Some(w.queue[k]), queue := w.queue[..k] + w.queue[k + 1..])
    ensures forall j | 0 <= j < |w.queue| :: NoLater(w.queue[k], w.queue[j])
  {
    hide NextUp;
    k := NextUp(w.queue);
    forall j | 0 <= j < |w.queue| ensures NoLater(w.queue[k], w.queue[j]) { NextUpFirst(w.queue, j); }
  }

  /** At the end commands are refused in that order too. */
  lemma RefusesSoonest(w: W) returns (k: nat)
    requires HeadKnown(w) && w.queue != []
    ensures k < |w.queue| && RefuseNext(w).queue == w.queue[..k] + w.queue[k + 1..]
    ensures forall j | 0 <= j < |w.queue| :: NoLater(w.queue[k], w.queue[j])
    ensures w.futures[w.queue[k].id] == Pending ==>
              && RefuseNext(w).futures == w.futures[w.queue[k].id := Settled(Unavailable)]
              && RefuseNext(w).log == w.log + [Settling(w.queue[k].id)]
    ensures w.futures[w.queue[k].id] == Cancelled ==>
              RefuseNext(w).futures == w.futures[w.queue[k].id := Notified] && RefuseNext(w).log == w.log
  {
    hide NextUp;
    k := NextUp(w.queue);
    forall j | 0 <= j < |w.queue| ensures NoLater(w.queue[k], w.queue[j]) { NextUpFirst(w.queue, j); }
  }

  /** A lease that is over, or was dropped, is over at once. */
  lemma LeaseOver(w: W, now: int)
    ensures RefreshLease(w, now) == w.(state := if w.state == Leased && w.leaseUntil <= now then Closed else w.state)
  {}

  /** A command whose turn it is: connected, it is started; where no link is to be had soon, or past its time, it is
      refused; else it waits and asks for the link. */
  lemma CommandsTurn(w: W, command: Command, e: Env)
    requires command.id < |w.futures| && w.futures[command.id] == Pending
    ensures
      var t := TryExecute(w, command, e);
      var state := if w.state == Leased && w.leaseUntil <= e.again then Closed else w.state;
      if state == Connected then
        w.log + [Started(command.id)] <= t.w.log && (t.escaped || t.handled)
      else if state in {PortBusy, PortLost, NoDevices, Backoff, Leased, Shutdown}
              || e.deadline > command.linkDeadline then
        && !t.escaped && t.handled && t.w.log == w.log + [Settling(command.id)]
        && t.w.futures == w.futures[command.id := Settled(Unavailable)] && t.w.state == state
      else t == T(w.(state := state, wantLink := true), false, false)
  {
    hide ExecuteClaimed, RefreshLease;
    LeaseOver(w, e.again);
    var v := RefreshLease(w, e.again);
    if v.state == Connected { StartsFirst(v, command.id, e); }
  }

  /** What becomes of a command that is started, and of the link. */
  lemma CommandEnds(w: W, id: nat, e: Env)
    requires Owned(w) && w.state == Connected && id < |w.futures| && w.futures[id] == Pending
    ensures
      var r := ExecuteClaimed(w, id, e);
      && |r.w.futures| == |w.futures| && (e.command != ArgumentEscapes ==> r.w.lastCommandAt == e.done)
      && match e.command
         case Success => !r.escaped && r.w.futures[id] == Settled(Result) && r.w.state == Connected && r.w.link
         case Failure => !r.escaped && r.w.futures[id] == Settled(Error) && r.w.state == Connected && r.w.link
         case AckedTimeout => !r.escaped && r.w.futures[id] == Settled(Error) && r.w.state == Draining && r.w.link
         case DeviceReset =>
           if e.releaseEscapes then r.escaped && r.w.futures[id] == Running
           else !r.escaped && r.w.futures[id] == Settled(Error) && r.w.state == Backoff && !r.w.link
         case ArgumentEscapes => r.escaped && r.w.futures[id] == Running && r.w.lastCommandAt == w.lastCommandAt
         case CommandEscapes => r.escaped && r.w.futures[id] == Running
  {
    hide FailLink;
    var v := w.(futures := w.futures[id := Running], log := w.log + [Started(id)]);
    FailLinkLetsGo(v, e.releaseEscapes, e.arm);
    FailLinkBooks(v, e.releaseEscapes, e.arm);
  }

  // ----- what has ended stays so -----

  /** A command that has ended stays as it ended, and one that was cancelled is at most told so. */
  predicate Lasts(before: Future, after: Future)
  {
    && (before.Settled? || before.Notified? ==> after == before)
    && (before.Cancelled? ==> after in {Cancelled, Notified})
  }

  ghost predicate EndsLast(w: W, v: W)
  {
    |w.futures| <= |v.futures| && forall id: nat | id < |w.futures| :: Lasts(w.futures[id], v.futures[id])
  }

  lemma TryLasts(u: W, command: Command, e: Env)
    requires command.id < |u.futures| && u.futures[command.id] in {Pending, Cancelled, Running}
    ensures EndsLast(u, TryExecute(u, command, e).w)
  {
    hide ExecuteClaimed, Abandon, RefreshLease, ClaimedTells, Tells;
    LeaseOver(u, e.again);
    var v := RefreshLease(u, e.again);
    if v.futures[command.id] == Running {
      RunningRefuses(v, command.id, e);
    } else {
      ClaimedOutcome(v, command.id, e);
      AbandonTells(v, command.id);
      AbandonLasts(v, command.id);
    }
  }

  lemma AbandonLasts(v: W, id: nat)
    requires id < |v.futures|
    ensures EndsLast(v, Abandon(v, id).w)
  {}

  lemma PassLasts(c: Config, w: W, e: Env)
    requires Booked(w) && HeadKnown(w)
    ensures EndsLast(w, Pass(c, w, e).w)
  {
    hide Booked, Step, TryExecute, Take, EndsLast, FailLink, RefreshLease;
    LeaseOver(w, e.refresh);
    var v := RefreshLease(w, e.refresh);
    IdleBooks(w, v);
    if v.head.None? { TakeBooks(v); }
    var u := if v.head.None? then Take(v) else v;
    HeadIsKnown(w, e.refresh);
    FailLinkBooks(Body(c, w, e).w, e.handlerReleaseEscapes, e.handlerArm);
    if u.head.None? {
      StepBooks(c, u, e);
      SameLasts(w, Pass(c, w, e).w);
    } else {
      BookedHead(u);
      TryLasts(u, u.head.value, e);
      var t := TryExecute(u, u.head.value, e);
      TryBooks(u, e);
      if !t.escaped && !t.handled { StepBooks(c, t.w, e); }
      assert Pass(c, w, e).w.futures == t.w.futures;
      SameEnds(u, t.w, w, Pass(c, w, e).w);
    }
  }

  lemma SameLasts(w: W, v: W)
    requires v.futures == w.futures
    ensures EndsLast(w, v)
  {}

  lemma SameEnds(u: W, t: W, w: W, v: W)
    requires EndsLast(u, t) && u.futures == w.futures && t.futures == v.futures
    ensures EndsLast(w, v)
  {}

  lemma LastsThrough(w: W, v: W, u: W)
    requires EndsLast(w, v) && EndsLast(v, u)
    ensures EndsLast(w, u)
  {
    forall id: nat | id < |w.futures| ensures Lasts(w.futures[id], u.futures[id]) {
      assert Lasts(w.futures[id], v.futures[id]) && Lasts(v.futures[id], u.futures[id]);
    }
  }

  lemma OtherLasts(c: Config, w: W, a: Act)
    requires HeadKnown(w) && !a.Passes?
    ensures EndsLast(w, Do(c, w, a).w)
  {}

  /** However long the worker runs, a command that has ended keeps the end it had. */
  lemma {:induction false} EndsAreFinal(c: Config, w: W, acts: seq<Act>)
    requires Booked(w)
    ensures EndsLast(w, Run(c, w, acts).w)
    decreases |acts|
  {
    hide Booked, Pass, EndsLast, Do;
    if acts == [] {
      SameLasts(w, w);
    } else {
      BookedKnown(w);
      DoBooks(c, w, acts[0]);
      var r := Do(c, w, acts[0]);
      DoLasts(c, w, acts[0]);
      if !r.escaped {
        EndsAreFinal(c, r.w, acts[1..]);
        LastsThrough(w, r.w, Run(c, r.w, acts[1..]).w);
      }
    }
  }

  lemma DoLasts(c: Config, w: W, a: Act)
    requires Booked(w) && HeadKnown(w)
    ensures EndsLast(w, Do(c, w, a).w)
  {
    hide Booked, Pass, EndsLast;
    if a.Passes? { PassLasts(c, w, a.e); } else { OtherLasts(c, w, a); }
  }

  /** A command cancelled before it is started is never started, refused or settled, on any run. */
  lemma CancelledNeverRuns(c: Config, w: W, id: nat, acts: seq<Act>)
    requires Booked(w) && id < |w.futures| && w.futures[id] == Pending
    ensures Booked(Cancel(w, id))
    ensures var v := Run(c, Cancel(w, id), acts).w;
      && id < |v.futures| && v.futures[id] in {Cancelled, Notified}
      && Times(v.log, Started(id)) == 0 && Times(v.log, Settling(id)) == 0
  {
    hide Booked, Times;
    CancelBooks(w, id);
    var u := Cancel(w, id);
    EndsAreFinal(c, u, acts);
    RunBooks(c, u, acts);
    var v := Run(c, u, acts).w;
    assert Lasts(u.futures[id], v.futures[id]);
    BookedRecords(v, id);
  }

  lemma BookedRecords(w: W, id: nat)
    requires Booked(w)
    ensures Recorded(w, id)
  {}

  // ----- opening -----

  /** When a step attempts to open the port, in so many words. */
  lemma StepOpens(c: Config, w: W, e: Env)
    requires Owned(w)
    ensures
      var asked := w.wantLink || w.queue != [] || c.monitor == Continuous
                   || (c.monitor == DutyCycled && e.step - w.lastMonitorAt >= c.monitorPeriod);
      var opens := w.leaseUntil <= e.step && w.state in {Closed, PortBusy, PortLost, NoDevices, Leased} && asked;
      Times(Step(c, w, e).w.log, OpenAttempted) == Times(w.log, OpenAttempted) + (if opens then 1 else 0)
  {
    hide Step, Times;
    OpensExactly(c, w, e);
  }

  /** The delay after one more failure. */
  function Doubled(backoff: int): int
  {
    if 2 * backoff <= 60000 then 2 * backoff else 60000
  }

  /** The link is down, and for how long it is left alone. */
  ghost predicate DownUntil(w: W, v: W, state: LinkState, now: int)
  {
    v.state == state && !v.link && v.backoff == Doubled(w.backoff) && v.backoffUntil == now + Doubled(w.backoff)
  }

  /** A link given up: released, and left alone for twice as long as the last time, at most a minute. */
  lemma FailedLinkWaits(w: W, escapes: bool, now: int)
    requires !(w.link && w.address.Some? && escapes)
    ensures var r := FailLink(w, escapes, now); !r.escaped && DownUntil(w, r.w, Backoff, now)
  {}

  /** How opening ends, over everything the port and the device can do, as long as giving the link up goes well. */
  lemma OpeningEnds(w: W, e: Env)
    requires !w.link && !e.releaseEscapes
    ensures
      var r := OpenAndConnect(w, e);
      match e.open
      case OpenEscapes => r.escaped
      case OpenBusy => !r.escaped && DownUntil(w, r.w, PortBusy, e.arm)
      case OpenLost => !r.escaped && DownUntil(w, r.w, PortLost, e.arm)
      case OpenFailed => !r.escaped && DownUntil(w, r.w, Backoff, e.arm)
      case Opened =>
        if e.staleEscapes then r.escaped
        else
          match e.discover
          case DiscoverEscapes => r.escaped
          case DiscoverFailed => !r.escaped && DownUntil(w, r.w, Backoff, e.arm)
          case NothingFound => !r.escaped && DownUntil(w, r.w, NoDevices, e.arm)
          case Found(addr) =>
            match e.connect
            case ConnectEscapes => r.escaped
            case ConnectFailed => !r.escaped && DownUntil(w, r.w, Backoff, e.arm)
            case ConnectDone =>
              match e.entry
              case EntryEscapes => r.escaped
              case EntryReset => !r.escaped && DownUntil(w, r.w, Backoff, e.arm)
              case EntryDone(polled) =>
                && !r.escaped && r.w.state == Connected && r.w.link && r.w.address == Some(addr)
                && r.w.polled == polled && !r.w.wantLink && r.w.backoff == 1000
  {
    hide FailLink, GiveUp;
    var o := w.(state := Opening, log := w.log + [OpenAttempted]);
    var d := o.(link := true, address := None, state := Discovering);
    GivenUp(d, Backoff, e);
    GivenUp(d, NoDevices, e);
    GivenUp(d.(state := Connecting), Backoff, e);
    if e.discover.Found? {
      FailedLinkWaits(d.(state := Connecting, address := Some(e.discover.addr), wantLink := false), false, e.arm);
    }
  }

  lemma GivenUp(w: W, state: LinkState, e: Env)
    requires state in {Backoff, NoDevices} && !e.releaseEscapes
    ensures var r := GiveUp(w, state, e); !r.escaped && DownUntil(w, r.w, state, e.arm)
  {}

  // ----- leaving the link alone -----

  /** The delays from the start: two seconds, four, eight, sixteen, thirty-two, and then a minute each time. */
  function Delay(failures: nat): int
  {
    if failures == 0 then 1000 else Doubled(Delay(failures - 1))
  }

  lemma DelaysInSeconds(failures: nat)
    ensures START.backoff == Delay(0)
    ensures Delay(1) == 2000 && Delay(2) == 4000 && Delay(3) == 8000 && Delay(4) == 16000 && Delay(5) == 32000
    ensures failures >= 6 ==> Delay(failures) == 60000
  {
    assert Delay(4) == 16000 && Delay(5) == 32000;
    if failures >= 6 { AMinuteEach(failures); }
  }

  lemma {:induction false} AMinuteEach(failures: nat)
    requires failures >= 6
    ensures Delay(failures) == 60000
  {
    if failures == 6 {
      assert Delay(3) == 8000 && Delay(5) == 32000;
    } else {
      AMinuteEach(failures - 1);
    }
  }

  /** The backoff state is left exactly when its time is over, and nothing else happens in it. */
  lemma BackoffStep(c: Config, w: W, e: Env)
    requires w.state == Backoff && w.leaseUntil <= e.step
    ensures Step(c, w, e) == R(w.(state := if e.step >= w.backoffUntil then Closed else Backoff), false)
  {}

  /** In it a command is refused and the step is not come to: the one that was waiting for the link, or else the next
      in the queue; without one the pass is that step. */
  lemma BackoffPass(c: Config, w: W, e: Env)
    requires Owned(w) && w.state == Backoff && HeadKnown(w)
    requires w.head.Some? ==> w.futures[w.head.value.id] in {Pending, Cancelled}
    requires w.head.None? && w.queue == [] ==> w.leaseUntil <= e.step
    requires forall k | 0 <= k < |w.queue| :: w.futures[w.queue[k].id] in {Pending, Cancelled}
    ensures
      var r := Pass(c, w, e);
      && !r.escaped && r.w.head.None? && Owned(r.w) && HeadKnown(r.w)
      && if w.head.None? && w.queue == [] then
           r.w == w.(state := if e.step >= w.backoffUntil then Closed else Backoff)
         else
           && r.w == w.(head := None, queue := r.w.queue, futures := r.w.futures, log := r.w.log)
           && |r.w.futures| == |w.futures| && Times(r.w.log, OpenAttempted) == Times(w.log, OpenAttempted)
           && if w.head.Some? then r.w.queue == w.queue && RefusedOnly(w, r.w, w.head.value.id)
              else exists k ::
                && 0 <= k < |w.queue| && r.w.queue == w.queue[..k] + w.queue[k + 1..]
                && RefusedOnly(w, r.w, w.queue[k].id)
  {
    hide Step, NextUp, Times, FailLink;
    if w.head.Some? {
      NotAttempted(w.log, Settling(w.head.value.id));
    } else if w.queue == [] {
      BackoffStep(c, w, e);
    } else {
      var k := NextUp(w.queue);
      var u := Take(w);
      assert u.head == Some(w.queue[k]);
      NotAttempted(w.log, Settling(w.queue[k].id));
      assert Pass(c, w, e).w.queue == w.queue[..k] + w.queue[k + 1..];
      assert RefusedOnly(w, Pass(c, w, e).w, w.queue[k].id);
    }
  }

  /** One command has been refused, or found cancelled, and no other touched. */
  ghost predicate RefusedOnly(w: W, v: W, id: nat)
  {
    && id < |w.futures|
    && v.futures == w.futures[id := if w.futures[id] == Pending then Settled(Unavailable) else Notified]
  }

  lemma NotAttempted(log: seq<Happening>, h: Happening)
    requires h != OpenAttempted
    ensures Times(log + [h], OpenAttempted) == Times(log, OpenAttempted)
  {
    assert (log + [h])[..|log|] == log;
  }

  /** The passes of a run. */
  function Passing(envs: seq<Env>): seq<Act>
  {
    if envs == [] then [] else [Passes(envs[0])] + Passing(envs[1..])
  }

  /** How many commands there are to refuse. */
  function Commands(w: W): nat
  {
    |w.queue| + if w.head.Some? then 1 else 0
  }

  /** Booked, and no command at the head was left running. */
  ghost predicate Sound(w: W)
  {
    Booked(w) && Owned(w) && (w.head.Some? ==> w.head.value.id < |w.futures| && w.futures[w.head.value.id] != Running)
  }

  /** One pass in backoff with a command there: it is gone, and nothing else has changed. */
  lemma BackoffRefuses(c: Config, w: W, e: Env)
    requires Sound(w) && HeadKnown(w) && w.state == Backoff && Commands(w) > 0
    ensures
      var r := Pass(c, w, e);
      && !r.escaped && Sound(r.w) && Commands(r.w) == Commands(w) - 1
      && r.w == w.(head := None, queue := r.w.queue, futures := r.w.futures, log := r.w.log)
      && Times(r.w.log, OpenAttempted) == Times(w.log, OpenAttempted)
  {
    hide Pass, Times, Booked, Owned, Recorded, RefusedOnly;
    if w.head.Some? { BookedHead(w); }
    QueuedArePending(w);
    BackoffPass(c, w, e);
    PassBooks(c, w, e);
  }

  /** With none there and the time over, the next pass leaves the state and the one after that attempts to open. */
  lemma BackoffOver(c: Config, w: W, e: Env, f: Env)
    requires Sound(w) && w.state == Backoff && Commands(w) == 0
    requires w.backoffUntil <= e.step && w.leaseUntil <= e.step && w.leaseUntil <= f.step
    requires w.wantLink || c.monitor == Continuous
             || (c.monitor == DutyCycled && f.step - w.lastMonitorAt >= c.monitorPeriod)
    ensures Times(Run(c, w, Passing([e, f])).w.log, OpenAttempted) == Times(w.log, OpenAttempted) + 1
  {
    hide Pass, Times, Booked, Owned, Recorded, RefusedOnly;
    BookedKnown(w);
    BackoffPass(c, w, e);
    PassBooks(c, w, e);
    OpensNext(c, Pass(c, w, e).w, f);
    assert [e, f][1..] == [f];
    assert Passing([e, f])[1..] == Passing([f]);
  }

  /** A worker left in backoff comes back by itself. Each command waiting for the link or queued is refused by a pass;
      the next pass after the time is over leaves the state; and the one after that attempts to open the port, if
      anything then asks for the link and no lease is in force. */
  lemma {:induction false} BackoffEnds(c: Config, w: W, envs: seq<Env>)
    requires Sound(w) && w.state == Backoff && |envs| == Commands(w) + 2
    requires forall e | e in envs :: w.leaseUntil <= e.step && w.backoffUntil <= e.step
    requires w.wantLink || c.monitor == Continuous
             || (c.monitor == DutyCycled && envs[|envs| - 1].step - w.lastMonitorAt >= c.monitorPeriod)
    ensures Times(Run(c, w, Passing(envs)).w.log, OpenAttempted) == Times(w.log, OpenAttempted) + 1
    decreases |envs|
  {
    hide Pass, Times, Booked, Owned, Recorded;
    BookedKnown(w);
    assert envs[0] in envs;
    if Commands(w) == 0 {
      BackoffOver(c, w, envs[0], envs[1]);
      assert envs == [envs[0], envs[1]];
    } else {
      hide Commands;
      BackoffRefuses(c, w, envs[0]);
      assert Passing(envs)[1..] == Passing(envs[1..]);
      assert forall e | e in envs[1..] :: e in envs;
      assert envs[1..][|envs| - 2] == envs[|envs| - 1];
      BackoffEnds(c, Pass(c, w, envs[0]).w, envs[1..]);
    }
  }

  lemma QueuedArePending(w: W)
    requires Booked(w) && HeadKnown(w)
    ensures forall k | 0 <= k < |w.queue| :: w.futures[w.queue[k].id] in {Pending, Cancelled}
  {
    hide Times;
    forall k | 0 <= k < |w.queue| ensures w.futures[w.queue[k].id] in {Pending, Cancelled} {
      InOnePlace(w, w.queue[k].id);
    }
  }

  /** With nothing queued and no lease, a closed worker that is asked for the link attempts to open the port. */
  lemma OpensNext(c: Config, w: W, e: Env)
    requires Booked(w) && Owned(w) && w.state == Closed && w.head.None? && w.queue == [] && w.leaseUntil <= e.step
    requires w.wantLink || c.monitor == Continuous
             || (c.monitor == DutyCycled && e.step - w.lastMonitorAt >= c.monitorPeriod)
    ensures Times(Run(c, w, Passing([e])).w.log, OpenAttempted) == Times(w.log, OpenAttempted) + 1
  {
    hide Step, Times, FailLink, Owned, Booked;
    StepOpens(c, w, e);
    BookedKnown(w);
    PassBooks(c, w, e);
    assert Take(w) == w && Body(c, w, e) == Step(c, w, e);
    FailLinkBooks(Step(c, w, e).w, e.handlerReleaseEscapes, e.handlerArm);
    FailLinkState(Step(c, w, e).w, e.handlerReleaseEscapes, e.handlerArm);
    assert Passing([e])[1..] == [];
  }

  /** A command submitted right after a lease was dropped is not refused: the pass that takes it opens the port. */
  lemma SubmittedAfterUnlease(c: Config, w: W, priority: int, linkDeadline: int, e: Env)
    requires Owned(w) && w.state == Leased && w.head.None? && w.queue == []
    requires w.leaseUntil <= e.refresh <= e.again <= e.step && e.deadline <= linkDeadline
    ensures HeadKnown(Submit(w, priority, linkDeadline))
    ensures var v := Submit(w, priority, linkDeadline); var r := Pass(c, v, e);
      && Times(r.w.log, OpenAttempted) == Times(w.log, OpenAttempted) + 1
      && |r.w.futures| == |w.futures| + 1 && r.w.futures[|w.futures|] == Pending
  {
    hide Step, Times, FailLink;
    var v := Submit(w, priority, linkDeadline);
    var command := Command(priority, |w.futures|, linkDeadline);
    assert v.queue == [command];
    var x := v.(state := Closed);
    assert Take(x) == x.(head := Some(command), queue := []);
    var u := Take(x).(wantLink := true);
    CommandsTurn(Take(x), command, e);
    assert Body(c, v, e) == Step(c, u, e);
    StepOpens(c, u, e);
    StepBooks(c, u, e);
    FailLinkBooks(Step(c, u, e).w, e.handlerReleaseEscapes, e.handlerArm);
    FailLinkState(Step(c, u, e).w, e.handlerReleaseEscapes, e.handlerArm);
  }

  // ----- connected -----

  /** Without monitoring the link is given back once nobody has used it for long enough, and not before. */
  lemma IdleRelease(c: Config, w: W, e: Env)
    requires Owned(w) && w.state == Connected && w.leaseUntil <= e.step && c.monitor == Off && !e.releaseEscapes
    ensures
      var r := Step(c, w, e);
      if e.step - w.lastCommandAt >= c.idleRelease && e.step - w.lastMonitorAt >= c.idleRelease then
        r == R(w.(state := Closed, link := false), false)
      else r == R(w, false)
  {}

  /** A duty-cycled worker polls the alarms when its period is over, and then gives the link back unless a command is
      waiting; before, it does nothing. */
  lemma DutyCycle(c: Config, w: W, e: Env)
    requires Owned(w) && w.state == Connected && w.leaseUntil <= e.step && c.monitor == DutyCycled && !e.releaseEscapes
    requires e.poll in {Polled, PollTimedOut}
    ensures
      var r := Step(c, w, e);
      if e.step - w.lastMonitorAt < c.monitorPeriod then r == R(w, false)
      else if w.queue == [] then r == R(w.(lastMonitorAt := e.step, state := Closed, link := false), false)
      else r == R(w.(lastMonitorAt := e.step), false)
  {}

  /** A continuously monitoring worker keeps the link: it polls the alarms when the device does not report them and
      the period is over, and sends a keep-alive when that is due; a keep-alive that fails gives the link up. */
  lemma Continuously(c: Config, w: W, e: Env)
    requires Owned(w) && w.state == Connected && w.leaseUntil <= e.step && c.monitor == Continuous && !e.releaseEscapes
    requires e.poll in {Polled, PollTimedOut}
    ensures
      var r := Step(c, w, e);
      var monitored := if w.polled && e.step - w.lastMonitorAt >= c.monitorPeriod then e.step else w.lastMonitorAt;
      if e.step - w.lastKeepaliveAt < c.keepalive then r == R(w.(lastMonitorAt := monitored), false)
      else
        match e.keepalive
        case BusDone => r == R(w.(lastMonitorAt := monitored, lastKeepaliveAt := e.step), false)
        case BusFailed => !r.escaped && DownUntil(w, r.w, Backoff, e.arm)
        case BusEscapes => r.escaped && r.w.link
  {
    hide FailLink;
    FailedLinkWaits(w.(lastKeepaliveAt := e.step), false, e.arm);
    FailedLinkWaits(w.(lastMonitorAt := e.step, lastKeepaliveAt := e.step), false, e.arm);
  }

  /** A poll the device answers with a reset gives the link up. With a duty cycle and nothing queued the port is then
      closed and not in backoff; and without one a keep-alive that is due finds no link, which is an exception. */
  lemma PollFindsReset(c: Config, w: W, e: Env)
    requires Owned(w) && w.state == Connected && w.leaseUntil <= e.step && DueMonitor(c, w, e.step)
    requires e.poll == PollReset && !e.releaseEscapes
    ensures
      var r := Step(c, w, e);
      var state := if c.monitor == DutyCycled && w.queue == [] then Closed else Backoff;
      && DownUntil(w, r.w, state, e.arm) && r.w.lastMonitorAt == e.step
      && (r.escaped <==> c.monitor == Continuous && e.step - w.lastKeepaliveAt >= c.keepalive)
  {}

  /** Draining ends in the connected state, or without the link. */
  lemma DrainEnds(c: Config, w: W, e: Env)
    requires Owned(w) && w.state == Draining && w.leaseUntil <= e.step && !e.releaseEscapes
    ensures
      var r := Step(c, w, e);
      match e.drain
      case BusDone => r == R(w.(state := Connected, log := w.log + [Drained]), false)
      case BusFailed => !r.escaped && DownUntil(w, r.w, Backoff, e.arm)
      case BusEscapes => r == R(w, true)
  {}

  // ----- the end -----

  /** At the end nothing is held and nothing is queued. */
  lemma TeardownEnds(w: W, e: Env)
    requires HeadKnown(w) && !e.releaseEscapes
    ensures var r := Teardown(w, e); !r.escaped && r.w.state == Shutdown && !r.w.link && r.w.queue == []
  {
    hide RefuseAll;
    NothingLeft(w);
  }

  lemma {:induction false} NothingLeft(w: W)
    requires HeadKnown(w)
    ensures RefuseAll(w).queue == [] && RefuseAll(w).link == w.link
    decreases |w.queue|
  {
    hide NextUp;
    if w.queue != [] {
      RefuseNextKnown(w);
      NothingLeft(RefuseNext(w));
    }
  }
}
