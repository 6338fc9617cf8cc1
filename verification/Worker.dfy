/** The worker as the program has it: fields, and methods that change them, each proved against the step
    functions of WorkerModel. */
module Worker {
  import opened Bits
  import opened Numbers
  import opened Wrappers
  import opened WorkerModel
  import M = WorkerModel

  class SerialWorker {
    const config: Config
    var state: LinkState
    var link: bool
    var address: Option<byte>
    var queue: seq<Command>
    var head: Option<Command>
    var futures: seq<Future>
    var wantLink: bool
    var polled: bool
    var backoff: int
    var backoffUntil: int
    var leaseUntil: int
    var lastCommandAt: int
    var lastMonitorAt: int
    var lastKeepaliveAt: int
    ghost var log: seq<Happening>

    ghost function State(): W
      reads this
    {
      W(state, link, address, queue, head, futures, wantLink, polled, backoff, backoffUntil, leaseUntil,
        lastCommandAt, lastMonitorAt, lastKeepaliveAt, log)
    }

    constructor (config: Config)
      ensures this.config == config && State() == START
    {
      this.config, state, link, address := config, Closed, false, None;
      queue, head, futures, wantLink, polled := [], None, [], false, false;
      backoff, backoffUntil, leaseUntil := 1000, 0, 0;
      lastCommandAt, lastMonitorAt, lastKeepaliveAt, log := 0, 0, 0, [];
    }

    method Release(escapes: bool) returns (escaped: bool)
      modifies this
      ensures R(State(), escaped) == M.Release(old(State()), escapes)
    {
      if !link {
        return false;
      }
      state := Releasing;
      if address.Some? && escapes {
        return true;
      }
      link := false;
      return false;
    }

    method ArmBackoff(now: int)
      modifies this
      ensures State() == M.ArmBackoff(old(State()), now)
    {
      backoff := Min(backoff * 2, MAX_BACKOFF);
      backoffUntil := now + backoff;
      if state !in {PortBusy, PortLost, NoDevices} {
        state := Backoff;
      }
    }

    method FailLink(escapes: bool, now: int) returns (escaped: bool)
      modifies this
      ensures R(State(), escaped) == M.FailLink(old(State()), escapes, now)
    {
      hide M.Release, M.ArmBackoff;
      escaped := Release(escapes);
      if escaped {
        return;
      }
      state := Backoff;
      ArmBackoff(now);
    }

    method GiveUp(why: LinkState, e: Env) returns (escaped: bool)
      modifies this
      ensures R(State(), escaped) == M.GiveUp(old(State()), why, e)
    {
      hide M.Release, M.ArmBackoff;
      escaped := Release(e.releaseEscapes);
      if escaped {
        return;
      }
      state := why;
      ArmBackoff(e.arm);
    }

    /** The entry actions are over. */
    method Enter(e: Env) returns (escaped: bool)
      modifies this
      ensures R(State(), escaped) == M.Entered(old(State()), e)
    {
      hide M.FailLink;
      if e.entry.EntryEscapes? {
        return true;
      }
      if e.entry.EntryReset? {
        escaped := FailLink(e.releaseEscapes, e.arm);
        return;
      }
      polled := e.entry.polled;
      backoff := 1000;
      state := Connected;
      log := log + [LinkUp];
      return false;
    }

    method Connect(addr: byte, e: Env) returns (escaped: bool)
      modifies this
      ensures R(State(), escaped) == M.ConnectTo(old(State()), addr, e)
    {
      hide M.GiveUp, M.Entered;
      state := Connecting;
      if e.connect.ConnectEscapes? {
        return true;
      }
      if e.connect.ConnectFailed? {
        escaped := GiveUp(Backoff, e);
        return;
      }
      address := Some(addr);
      wantLink := false;
      escaped := Enter(e);
    }

    method Discover(e: Env) returns (escaped: bool)
      modifies this
      ensures R(State(), escaped) == M.DiscoverAndConnect(old(State()), e)
    {
      hide M.GiveUp, M.ConnectTo;
      state := Discovering;
      match e.discover {
        case DiscoverEscapes => escaped := true;
        case DiscoverFailed => escaped := GiveUp(Backoff, e);
        case NothingFound => escaped := GiveUp(NoDevices, e);
        case Found(addr) => escaped := Connect(addr, e);
      }
    }

    method OpenAndConnect(e: Env) returns (escaped: bool)
      modifies this
      ensures R(State(), escaped) == M.OpenAndConnect(old(State()), e)
    {
      hide M.ArmBackoff, M.DiscoverAndConnect;
      state := Opening;
      log := log + [OpenAttempted];
      if e.open.OpenEscapes? {
        return true;
      }
      if !e.open.Opened? {
        state := if e.open.OpenBusy? then PortBusy else if e.open.OpenLost? then PortLost else Backoff;
        ArmBackoff(e.arm);
        return false;
      }
      link := true;
      if e.staleEscapes {
        return true;
      }
      address := None;
      escaped := Discover(e);
    }

    method KeepalivePoll(e: Env) returns (escaped: bool)
      modifies this
      ensures R(State(), escaped) == M.KeepalivePoll(old(State()), e)
    {
      hide M.FailLink;
      if !link {
        return true;
      }
      escaped := e.keepalive.BusEscapes?;
      if e.keepalive.BusFailed? {
        escaped := FailLink(e.releaseEscapes, e.arm);
      }
    }

    method ReleaseAndClose(e: Env) returns (escaped: bool)
      modifies this
      ensures R(State(), escaped) == M.ReleaseAndClose(old(State()), e)
    {
      hide M.Release;
      escaped := Release(e.releaseEscapes);
      if !escaped {
        state := Closed;
      }
    }

    method PollAlarms(e: Env) returns (escaped: bool)
      modifies this
      ensures R(State(), escaped) == M.PollAlarms(old(State()), e)
    {
      hide M.FailLink;
      escaped := e.poll.PollEscapes?;
      if e.poll.PollReset? {
        escaped := FailLink(e.releaseEscapes, e.arm);
      }
    }

    /** The tail of `_connected_housekeeping`. */
    method AfterMonitor(e: Env) returns (escaped: bool)
      modifies this
      ensures R(State(), escaped) == M.AfterMonitor(config, old(State()), e)
    {
      hide M.KeepalivePoll, M.ReleaseAndClose;
      escaped := false;
      if config.monitor == Continuous {
        if e.step - lastKeepaliveAt >= config.keepalive {
          lastKeepaliveAt := e.step;
          escaped := KeepalivePoll(e);
        }
        return;
      }
      var idleFor := e.step - Max(lastCommandAt, lastMonitorAt);
      if config.monitor == Off && idleFor >= config.idleRelease {
        escaped := ReleaseAndClose(e);
      }
    }

    method ConnectedHousekeeping(e: Env) returns (escaped: bool)
      modifies this
      ensures R(State(), escaped) == M.Housekeeping(config, old(State()), e)
    {
      hide M.PollAlarms, M.ReleaseAndClose, M.AfterMonitor;
      var dueMonitor := config.monitor == DutyCycled && e.step - lastMonitorAt >= config.monitorPeriod;
      if dueMonitor || (config.monitor == Continuous && polled && e.step - lastMonitorAt >= config.monitorPeriod) {
        lastMonitorAt := e.step;
        escaped := PollAlarms(e);
        if escaped {
          return;
        }
        if config.monitor == DutyCycled && queue == [] {
          escaped := ReleaseAndClose(e);
          return;
        }
      }
      escaped := AfterMonitor(e);
    }

    method Drain(e: Env) returns (escaped: bool)
      modifies this
      ensures R(State(), escaped) == M.Drain(old(State()), e)
    {
      hide M.FailLink;
      if e.drain.BusEscapes? {
        return true;
      }
      if e.drain.BusFailed? {
        escaped := FailLink(e.releaseEscapes, e.arm);
        return;
      }
      state := Connected;
      log := log + [Drained];
      return false;
    }

    method Step(e: Env) returns (escaped: bool)
      modifies this
      ensures R(State(), escaped) == M.Step(config, old(State()), e)
    {
      hide M.Release, M.OpenAndConnect, M.Drain, M.Housekeeping;
      escaped := false;
      if leaseUntil > e.step {
        if state !in {Leased, Closed} {
          escaped := Release(e.releaseEscapes);
          if escaped {
            return;
          }
        }
        state := Leased;
        return;
      }
      if state == Leased {
        state := Closed;
      }
      if state in {Closed, PortBusy, PortLost, NoDevices} {
        if wantLink || queue != [] || config.monitor == Continuous
          || (config.monitor == DutyCycled && e.step - lastMonitorAt >= config.monitorPeriod) {
          escaped := OpenAndConnect(e);
        }
        return;
      }
      if state == Backoff {
        if e.step >= backoffUntil {
          state := Closed;
        }
        return;
      }
      if state == Draining {
        escaped := Drain(e);
        return;
      }
      if state == Connected {
        escaped := ConnectedHousekeeping(e);
      }
    }

    method RefreshLease(now: int)
      modifies this
      ensures State() == M.RefreshLease(old(State()), now)
    {
      if state == Leased && leaseUntil <= now {
        state := Closed;
      }
    }

    method Take()
      requires head.None?
      modifies this
      ensures State() == M.Take(old(State()))
    {
      if queue == [] {
        return;
      }
      var k := 0;
      for i := 1 to |queue|
        invariant k == M.NextUp(queue[..i])
        invariant State() == old(State())
      {
        assert queue[..i + 1][..i] == queue[..i];
        if M.Sooner(queue[i], queue[k]) {
          k := i;
        }
      }
      assert queue[..|queue|] == queue;
      head := Some(queue[k]);
      queue := queue[..k] + queue[k + 1..];
    }

    method Abandon(id: nat) returns (escaped: bool)
      requires id < |futures|
      modifies this
      ensures R(State(), escaped) == M.Abandon(old(State()), id)
    {
      escaped := false;
      match futures[id] {
        case Pending =>
          futures := futures[id := Settled(Unavailable)];
          log := log + [Settling(id)];
        case Cancelled => futures := futures[id := Notified];
        case _ => escaped := true;
      }
    }

    method Settle(id: nat, how: Settlement)
      requires id < |futures|
      modifies this
      ensures State() == M.Settle(old(State()), id, how)
    {
      futures := futures[id := Settled(how)];
      log := log + [Settling(id)];
    }

    method Execute(id: nat, e: Env) returns (escaped: bool)
      requires id < |futures|
      modifies this
      ensures R(State(), escaped) == M.Execute(old(State()), id, e)
    {
      hide M.FailLink, M.Settle;
      escaped := false;
      match e.command {
        case Success => Settle(id, Result);
        case Failure => Settle(id, Error);
        case AckedTimeout =>
          state := Draining;
          log := log + [TimedOutAcked];
          Settle(id, Error);
        case DeviceReset =>
          ghost var before := State();
          escaped := FailLink(e.releaseEscapes, e.arm);
          if !escaped {
            M.FailLinkKeepsFutures(before, e.releaseEscapes, e.arm);
            Settle(id, Error);
          }
        case ArgumentEscapes => return true;
        case CommandEscapes => escaped := true;
      }
      lastCommandAt := e.done;
    }

    /** The command is finished with unless an exception escapes or it has to wait for the link. */
    method TryExecute(c: Command, e: Env) returns (escaped: bool, handled: bool)
      requires c.id < |futures|
      modifies this
      ensures T(State(), escaped, handled) == M.TryExecute(old(State()), c, e)
    {
      hide M.Execute, M.Abandon;
      RefreshLease(e.again);
      if state == Connected {
        match futures[c.id] {
          case Pending =>
            futures := futures[c.id := Running];
            log := log + [Started(c.id)];
            escaped := Execute(c.id, e);
          case Cancelled =>
            futures := futures[c.id := Notified];
            escaped := false;
          case _ => escaped := true;
        }
        return escaped, !escaped;
      }
      if M.FailFast(state) || e.deadline > c.linkDeadline {
        escaped := Abandon(c.id);
        return escaped, !escaped;
      }
      wantLink := true;
      return false, false;
    }

    /** One pass of `run`; true when the thread has died. */
    method RunPass(e: Env) returns (died: bool)
      requires M.HeadKnown(State())
      modifies this
      ensures R(State(), died) == M.Pass(config, old(State()), e)
    {
      hide M.Step, M.TryExecute, M.FailLink, M.NextUp;
      var escaped: bool;
      RefreshLease(e.refresh);
      if head.None? {
        Take();
      }
      if head.Some? {
        var handled;
        escaped, handled := TryExecute(head.value, e);
        if !escaped {
          if handled {
            head := None;
            return false;
          }
          escaped := Step(e);
        }
      } else {
        escaped := Step(e);
      }
      died := false;
      if escaped {
        died := FailLink(e.handlerReleaseEscapes, e.handlerArm);
      }
    }

    method Submit(priority: int, linkDeadline: int) returns (id: nat)
      modifies this
      ensures State() == M.Submit(old(State()), priority, linkDeadline) && id == |old(futures)|
    {
      id := |futures|;
      queue := queue + [Command(priority, id, linkDeadline)];
      futures := futures + [Pending];
    }

    method Lease(until: int)
      modifies this
      ensures State() == M.Lease(old(State()), until)
    {
      leaseUntil := until;
    }

    method Teardown(e: Env) returns (died: bool)
      requires M.HeadKnown(State())
      modifies this
      ensures R(State(), died) == M.Teardown(old(State()), e)
    {
      hide M.Release, M.NextUp, M.Abandon;
      ghost var refused := M.RefuseAll(State());
      while queue != []
        invariant M.HeadKnown(State()) && M.RefuseAll(State()) == refused
        decreases |queue|
      {
        M.RefuseNextKnown(State());
        var k := M.NextUp(queue);
        var id := queue[k].id;
        queue := queue[..k] + queue[k + 1..];
        var _ := Abandon(id);
      }
      died := Release(e.releaseEscapes);
      if !died {
        state := Shutdown;
      }
    }
  }
}
