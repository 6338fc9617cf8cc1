/** The serial worker: one thread that owns the port, takes commands from a queue, and keeps the link up,
    drained, leased out or closed. Each pass of its loop is one step; what the link, the device and the
    clock do during a pass is given, and any call may also end in an exception nobody expects. */
module WorkerModel {
  import opened Bits
  import opened Numbers
  import opened Wrappers

  datatype LinkState =
    | Closed | Opening | PortBusy | PortLost | Discovering | NoDevices | Connecting
    | Connected | Draining | Releasing | Backoff | Leased | Shutdown

  datatype MonitorMode = Off | DutyCycled | Continuous

  /** States in which a queued command fails at once. */
  predicate FailFast(s: LinkState)
  {
    s in {PortBusy, PortLost, NoDevices, Backoff, Leased, Shutdown}
  }

  // Times are in milliseconds.
  const MAX_BACKOFF := 60000

  datatype Config = Config(monitor: MonitorMode, monitorPeriod: int, keepalive: int, idleRelease: int)

  /** Commands are numbered as they are submitted; the least priority goes first, then the oldest. */
  datatype Command = Command(priority: int, id: nat, linkDeadline: int)

  /** How a command's future was settled: with its result, with the error it raised, or unexecuted. */
  datatype Settlement = Result | Error | Unavailable

  /** A concurrent future; `Notified` is a cancellation the worker has seen. */
  datatype Future = Pending | Cancelled | Notified | Running | Settled(how: Settlement)

  datatype Happening =
    | OpenAttempted
    | LinkUp
    | Started(id: nat)
    | TimedOutAcked
    | Drained
    | Settling(id: nat)

  datatype W = W(
    state: LinkState, link: bool, address: Option<byte>,
    queue: seq<Command>, head: Option<Command>, futures: seq<Future>,
    wantLink: bool, polled: bool,
    backoff: int, backoffUntil: int, leaseUntil: int,
    lastCommandAt: int, lastMonitorAt: int, lastKeepaliveAt: int,
    log: seq<Happening>)

  // ----- what the surroundings do in one pass -----

  datatype OpenResult = Opened | OpenBusy | OpenLost | OpenFailed | OpenEscapes
  datatype DiscoverResult = Found(addr: byte) | NothingFound | DiscoverFailed | DiscoverEscapes
  datatype ConnectResult = ConnectDone | ConnectFailed | ConnectEscapes
  /** Entry actions: usable, reset by the device, or an unexpected exception. */
  datatype EntryResult = EntryDone(polled: bool) | EntryReset | EntryEscapes
  /** A command: done, or over with an AISG error of one kind or another, or with something else - while its
      arguments were read, or later. */
  datatype CommandResult = Success | DeviceReset | AckedTimeout | Failure | ArgumentEscapes | CommandEscapes
  /** An alarm poll: done or over with an error that is only logged, timed out with its request acknowledged - which
      is only logged too -, reset by the device, or an unexpected exception. */
  datatype PollResult = Polled | PollTimedOut | PollReset | PollEscapes
  /** Keep-alive and drain: done, the link given up, or an unexpected exception. */
  datatype BusResult = BusDone | BusFailed | BusEscapes

  datatype Env = Env(
    refresh: int, again: int, deadline: int, done: int, step: int, arm: int, handlerArm: int,
    open: OpenResult, staleEscapes: bool, discover: DiscoverResult, connect: ConnectResult, entry: EntryResult,
    command: CommandResult, poll: PollResult, keepalive: BusResult, drain: BusResult,
    releaseEscapes: bool, handlerReleaseEscapes: bool)

  /** Where a call leaves the worker, and whether an exception escaped it. */
  datatype R = R(w: W, escaped: bool)

  // ----- the link -----

  /** `_release`: OSError and AisgError from the disconnect are swallowed; any other exception leaves the
      link in place. */
  function Release(w: W, escapes: bool): R
  {
    if !w.link then R(w, false)
    else if w.address.Some? && escapes then R(w.(state := Releasing), true)
    else R(w.(state := Releasing, link := false), false)
  }

  function ArmBackoff(w: W, now: int): W
  {
    var backoff := Min(w.backoff * 2, MAX_BACKOFF);
    w.(backoff := backoff, backoffUntil := now + backoff,
       state := if w.state in {PortBusy, PortLost, NoDevices} then w.state else Backoff)
  }

  function FailLink(w: W, escapes: bool, now: int): R
  {
    var r := Release(w, escapes);
    if r.escaped then r else R(ArmBackoff(r.w.(state := Backoff), now), false)
  }

  /** Release, then a state that says why, then the backoff. */
  function GiveUp(w: W, state: LinkState, e: Env): R
  {
    var r := Release(w, e.releaseEscapes);
    if r.escaped then r else R(ArmBackoff(r.w.(state := state), e.arm), false)
  }

  function Entered(w: W, e: Env): R
  {
    match e.entry
    case EntryEscapes => R(w, true)
    case EntryReset => FailLink(w, e.releaseEscapes, e.arm)
    case EntryDone(polled) =>
      R(w.(polled := polled, backoff := 1000, state := Connected, log := w.log + [LinkUp]), false)
  }

  function ConnectTo(w: W, addr: byte, e: Env): R
  {
    match e.connect
    case ConnectEscapes => R(w.(state := Connecting), true)
    case ConnectFailed => GiveUp(w.(state := Connecting), Backoff, e)
    case ConnectDone => Entered(w.(state := Connecting, address := Some(addr), wantLink := false), e)
  }

  function DiscoverAndConnect(w: W, e: Env): R
  {
    match e.discover
    case DiscoverEscapes => R(w.(state := Discovering), true)
    case DiscoverFailed => GiveUp(w.(state := Discovering), Backoff, e)
    case NothingFound => GiveUp(w.(state := Discovering), NoDevices, e)
    case Found(addr) => ConnectTo(w.(state := Discovering), addr, e)
  }

  function OpenAndConnect(w: W, e: Env): R
  {
    var o := w.(state := Opening, log := w.log + [OpenAttempted]);
    match e.open
    case OpenEscapes => R(o, true)
    case OpenBusy => R(ArmBackoff(o.(state := PortBusy), e.arm), false)
    case OpenLost => R(ArmBackoff(o.(state := PortLost), e.arm), false)
    case OpenFailed => R(ArmBackoff(o.(state := Backoff), e.arm), false)
    case Opened =>
      if e.staleEscapes then R(o.(link := true), true)
      else DiscoverAndConnect(o.(link := true, address := None), e)
  }

  // ----- housekeeping -----

  function ShouldOpen(c: Config, w: W, now: int): bool
  {
    w.wantLink || w.queue != [] || c.monitor == Continuous
    || (c.monitor == DutyCycled && now - w.lastMonitorAt >= c.monitorPeriod)
  }

  function PollAlarms(w: W, e: Env): R
  {
    match e.poll
    case Polled => R(w, false)
    case PollTimedOut => R(w, false)
    case PollReset => FailLink(w, e.releaseEscapes, e.arm)
    case PollEscapes => R(w, true)
  }

  /** Without a link there is nothing to poll, and the attempt is an exception of its own. */
  function KeepalivePoll(w: W, e: Env): R
  {
    if !w.link then R(w, true)
    else
      match e.keepalive
      case BusDone => R(w, false)
      case BusFailed => FailLink(w, e.releaseEscapes, e.arm)
      case BusEscapes => R(w, true)
  }

  function Drain(w: W, e: Env): R
  {
    match e.drain
    case BusDone => R(w.(state := Connected, log := w.log + [Drained]), false)
    case BusFailed => FailLink(w, e.releaseEscapes, e.arm)
    case BusEscapes => R(w, true)
  }

  function ReleaseAndClose(w: W, e: Env): R
  {
    var r := Release(w, e.releaseEscapes);
    if r.escaped then r else R(r.w.(state := Closed), false)
  }

  predicate DueMonitor(c: Config, w: W, now: int)
  {
    (c.monitor == DutyCycled || (c.monitor == Continuous && w.polled)) && now - w.lastMonitorAt >= c.monitorPeriod
  }

  function AfterMonitor(c: Config, w: W, e: Env): R
  {
    if c.monitor == Continuous then
      if e.step - w.lastKeepaliveAt >= c.keepalive then KeepalivePoll(w.(lastKeepaliveAt := e.step), e) else R(w, false)
    else if c.monitor == Off && e.step - Max(w.lastCommandAt, w.lastMonitorAt) >= c.idleRelease then
      ReleaseAndClose(w, e)
    else R(w, false)
  }

  function Housekeeping(c: Config, w: W, e: Env): R
  {
    if !DueMonitor(c, w, e.step) then AfterMonitor(c, w, e)
    else
      var r := PollAlarms(w.(lastMonitorAt := e.step), e);
      if r.escaped then r
      else if c.monitor == DutyCycled && r.w.queue == [] then ReleaseAndClose(r.w, e)
      else AfterMonitor(c, r.w, e)
  }

  /** `_step` once no lease is in force. */
  function StepFree(c: Config, w: W, e: Env): R
  {
    match w.state
    case Closed | PortBusy | PortLost | NoDevices =>
      if ShouldOpen(c, w, e.step) then OpenAndConnect(w, e) else R(w, false)
    case Backoff => R(if e.step >= w.backoffUntil then w.(state := Closed) else w, false)
    case Draining => Drain(w, e)
    case Connected => Housekeeping(c, w, e)
    case _ => R(w, false)
  }

  function StepLeased(w: W, e: Env): R
  {
    if w.state in {Leased, Closed} then R(w.(state := Leased), false)
    else
      var r := Release(w, e.releaseEscapes);
      if r.escaped then r else R(r.w.(state := Leased), false)
  }

  function Step(c: Config, w: W, e: Env): R
  {
    if w.leaseUntil > e.step then StepLeased(w, e)
    else StepFree(c, if w.state == Leased then w.(state := Closed) else w, e)
  }

  // ----- commands -----

  function RefreshLease(w: W, now: int): W
  {
    if w.state == Leased && w.leaseUntil <= now then w.(state := Closed) else w
  }

  predicate Sooner(a: Command, b: Command)
  {
    a.priority < b.priority || (a.priority == b.priority && a.id < b.id)
  }

  /** Where the command the priority queue gives out next stands. */
  function NextUp(queue: seq<Command>): (k: nat)
    requires queue != []
    ensures k < |queue|
  {
    if |queue| == 1 then 0
    else
      var k := NextUp(queue[..|queue| - 1]);
      if Sooner(queue[|queue| - 1], queue[k]) then |queue| - 1 else k
  }

  function Take(w: W): W
  {
    if w.queue == [] then w
    else
      var k := NextUp(w.queue);
      w.(head := Some(w.queue[k]), queue := w.queue[..k] + w.queue[k + 1..])
  }

  function Settle(w: W, id: nat, how: Settlement): W
    requires id < |w.futures|
  {
    w.(futures := w.futures[id := Settled(how)], log := w.log + [Settling(id)])
  }

  /** `_abandon`: a future that is neither pending nor cancelled refuses to be claimed. */
  function Abandon(w: W, id: nat): R
    requires id < |w.futures|
  {
    match w.futures[id]
    case Pending => R(Settle(w, id, Unavailable), false)
    case Cancelled => R(w.(futures := w.futures[id := Notified]), false)
    case _ => R(w, true)
  }

  /** `_execute`, with the future already running. */
  function Execute(w: W, id: nat, e: Env): R
    requires id < |w.futures|
  {
    match e.command
    case Success => R(Settle(w, id, Result).(lastCommandAt := e.done), false)
    case Failure => R(Settle(w, id, Error).(lastCommandAt := e.done), false)
    case AckedTimeout =>
      R(Settle(w.(state := Draining, log := w.log + [TimedOutAcked]), id, Error).(lastCommandAt := e.done), false)
    case DeviceReset =>
      var r := FailLink(w, e.releaseEscapes, e.arm);
      if r.escaped then R(r.w.(lastCommandAt := e.done), true)
      else R(Settle(r.w, id, Error).(lastCommandAt := e.done), false)
    case ArgumentEscapes => R(w, true)
    case CommandEscapes => R(w.(lastCommandAt := e.done), true)
  }

  function ExecuteClaimed(w: W, id: nat, e: Env): R
    requires id < |w.futures|
  {
    match w.futures[id]
    case Pending => Execute(w.(futures := w.futures[id := Running], log := w.log + [Started(id)]), id, e)
    case Cancelled => R(w.(futures := w.futures[id := Notified]), false)
    case _ => R(w, true)
  }

  datatype T = T(w: W, escaped: bool, handled: bool)

  function TryExecute(w: W, c: Command, e: Env): T
    requires c.id < |w.futures|
  {
    var v := RefreshLease(w, e.again);
    if v.state == Connected then
      var r := ExecuteClaimed(v, c.id, e);
      T(r.w, r.escaped, !r.escaped)
    else if FailFast(v.state) || e.deadline > c.linkDeadline then
      var r := Abandon(v, c.id);
      T(r.w, r.escaped, !r.escaped)
    else T(v.(wantLink := true), false, false)
  }

  // ----- the loop -----

  predicate HeadKnown(w: W)
  {
    (w.head.Some? ==> w.head.value.id < |w.futures|)
    && forall k | 0 <= k < |w.queue| :: w.queue[k].id < |w.futures|
  }

  /** The body of the `try`. */
  function Body(c: Config, w: W, e: Env): R
    requires HeadKnown(w)
  {
    var v := RefreshLease(w, e.refresh);
    var u := if v.head.None? then Take(v) else v;
    if u.head.None? then Step(c, u, e)
    else
      var t := TryExecute(u, u.head.value, e);
      if t.escaped then R(t.w, true)
      else if t.handled then R(t.w.(head := None), false)
      else Step(c, t.w, e)
  }

  /** One pass of `run`; `escaped` now means that the thread has died in its own exception handler. */
  function Pass(c: Config, w: W, e: Env): R
    requires HeadKnown(w)
  {
    var r := Body(c, w, e);
    if r.escaped then FailLink(r.w, e.handlerReleaseEscapes, e.handlerArm) else r
  }

  lemma AbandonKeeps(w: W, id: nat)
    requires id < |w.futures|
    ensures Abandon(w, id).w.queue == w.queue && |Abandon(w, id).w.futures| == |w.futures|
    ensures Abandon(w, id).w.head == w.head
  {}

  function RefuseNext(w: W): W
    requires HeadKnown(w) && w.queue != []
  {
    var k := NextUp(w.queue);
    Abandon(w.(queue := w.queue[..k] + w.queue[k + 1..]), w.queue[k].id).w
  }

  lemma RefuseNextKnown(w: W)
    requires HeadKnown(w) && w.queue != []
    ensures HeadKnown(RefuseNext(w)) && |RefuseNext(w).queue| == |w.queue| - 1
  {
    hide NextUp, Abandon;
    var k := NextUp(w.queue);
    AbandonKeeps(w.(queue := w.queue[..k] + w.queue[k + 1..]), w.queue[k].id);
  }

  function RefuseAll(w: W): W
    requires HeadKnown(w)
    decreases |w.queue|
  {
    if w.queue == [] then w
    else
      RefuseNextKnown(w);
      RefuseAll(RefuseNext(w))
  }

  /** `_teardown` and the last state, unless the release throws. */
  function Teardown(w: W, e: Env): R
    requires HeadKnown(w)
  {
    var r := Release(RefuseAll(w), e.releaseEscapes);
    if r.escaped then r else R(r.w.(state := Shutdown), false)
  }

  // ----- what other threads do between passes -----

  function Submit(w: W, priority: int, linkDeadline: int): W
  {
    w.(queue := w.queue + [Command(priority, |w.futures|, linkDeadline)], futures := w.futures + [Pending])
  }

  function Cancel(w: W, id: nat): W
  {
    if id < |w.futures| && w.futures[id] == Pending then w.(futures := w.futures[id := Cancelled]) else w
  }

  function Lease(w: W, until: int): W
  {
    w.(leaseUntil := until)
  }

  const START := W(Closed, false, None, [], None, [], false, false, 1000, 0, 0, 0, 0, 0, [])

  lemma FailLinkKeepsFutures(w: W, escapes: bool, now: int)
    ensures |FailLink(w, escapes, now).w.futures| == |w.futures|
  {}
}
