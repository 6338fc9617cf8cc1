/** What every run of the worker keeps: who holds the link, where each command is, when none may execute. */
module WorkerRuns {
  import opened Bits
  import opened Numbers
  import opened Wrappers
  import opened WorkerModel

  // ----- ownership -----

  /** At a loop boundary the link is held exactly in the two states that use it, and no state is one that
      `_step` would leave alone for ever. */
  ghost predicate Owned(w: W)
  {
    && (w.link <==> w.state in {Connected, Draining})
    && w.state in {Closed, PortBusy, PortLost, NoDevices, Connected, Draining, Backoff, Leased}
    && (w.link ==> w.address.Some?)
  }

  lemma FailLinkLetsGo(w: W, escapes: bool, now: int)
    ensures var r := FailLink(w, escapes, now);
      && (r.escaped <==> w.link && w.address.Some? && escapes)
      && (!r.escaped ==> !r.w.link && r.w.state == Backoff)
      && (r.escaped ==> r.w == w.(state := Releasing))
  {}

  lemma GiveUpLetsGo(w: W, state: LinkState, e: Env)
    requires state in {Backoff, NoDevices}
    ensures var r := GiveUp(w, state, e); !r.escaped ==> !r.w.link && r.w.state == state
  {}

  lemma OpenOwned(w: W, e: Env)
    requires !w.link
    ensures var r := OpenAndConnect(w, e); !r.escaped ==> Owned(r.w)
  {
    hide FailLink, GiveUp;
    var o := w.(state := Opening, log := w.log + [OpenAttempted]);
    var d := o.(link := true, address := None, state := Discovering);
    GiveUpLetsGo(d, Backoff, e);
    GiveUpLetsGo(d, NoDevices, e);
    GiveUpLetsGo(d.(state := Connecting), Backoff, e);
    if e.discover.Found? {
      FailLinkLetsGo(
        d.(state := Connecting, address := Some(e.discover.addr), wantLink := false), e.releaseEscapes, e.arm);
    }
  }

  lemma HousekeepingOwned(c: Config, w: W, e: Env)
    requires Owned(w) && w.state == Connected
    ensures var r := Housekeeping(c, w, e); !r.escaped ==> Owned(r.w)
  {
    hide FailLink;
    var v := w.(lastMonitorAt := e.step);
    FailLinkLetsGo(v, e.releaseEscapes, e.arm);
    FailLinkLetsGo(w.(lastKeepaliveAt := e.step), e.releaseEscapes, e.arm);
    FailLinkLetsGo(v.(lastKeepaliveAt := e.step), e.releaseEscapes, e.arm);
  }

  lemma StepOwned(c: Config, w: W, e: Env)
    requires Owned(w)
    ensures var r := Step(c, w, e); !r.escaped ==> Owned(r.w)
  {
    hide FailLink, OpenAndConnect, Housekeeping;
    var v := if w.state == Leased then w.(state := Closed) else w;
    if !v.link { OpenOwned(v, e); }
    if v.state == Connected { HousekeepingOwned(c, v, e); }
    FailLinkLetsGo(v, e.releaseEscapes, e.arm);
  }

  lemma ExecuteOwned(w: W, id: nat, e: Env)
    requires Owned(w) && w.state == Connected && id < |w.futures|
    ensures var r := ExecuteClaimed(w, id, e); !r.escaped ==> Owned(r.w)
  {
    hide FailLink;
    if w.futures[id].Pending? {
      FailLinkLetsGo(w.(futures := w.futures[id := Running], log := w.log + [Started(id)]), e.releaseEscapes, e.arm);
      FailLinkKeepsFutures(
        w.(futures := w.futures[id := Running], log := w.log + [Started(id)]), e.releaseEscapes, e.arm);
    }
  }

  lemma TryOwned(w: W, c: Command, e: Env)
    requires Owned(w) && c.id < |w.futures|
    ensures var t := TryExecute(w, c, e); !t.escaped ==> Owned(t.w)
  {
    hide ExecuteClaimed;
    var v := RefreshLease(w, e.again);
    if v.state == Connected { ExecuteOwned(v, c.id, e); }
  }

  lemma TakeOwned(w: W)
    requires Owned(w)
    ensures Owned(Take(w))
  {
    hide NextUp;
  }

  lemma BodyOwned(c: Config, w: W, e: Env)
    requires Owned(w) && HeadKnown(w)
    ensures var r := Body(c, w, e); !r.escaped ==> Owned(r.w)
  {
    hide Step, TryExecute, Take;
    var v := RefreshLease(w, e.refresh);
    TakeOwned(v);
    var u := if v.head.None? then Take(v) else v;
    if u.head.None? {
      StepOwned(c, u, e);
    } else {
      HeadIsKnown(w, e.refresh);
      TryOwned(u, u.head.value, e);
      var t := TryExecute(u, u.head.value, e);
      if !t.escaped { StepOwned(c, t.w, e); }
    }
  }

  lemma HeadIsKnown(w: W, now: int)
    requires HeadKnown(w)
    ensures var v := RefreshLease(w, now); var u := if v.head.None? then Take(v) else v;
      && HeadKnown(u) && u.futures == w.futures && (u.head.Some? ==> u.head.value.id < |u.futures|)
  {
    hide NextUp;
  }

  // What escapes while the link is held and addressed, so that giving it up means speaking to the device.

  predicate BusThrows(result: BusResult, e: Env)
  {
    result.BusEscapes? || (result.BusFailed? && e.releaseEscapes)
  }

  predicate MonitorThrows(c: Config, w: W, e: Env)
  {
    if c.monitor == Continuous then e.step - w.lastKeepaliveAt >= c.keepalive && BusThrows(e.keepalive, e)
    else c.monitor == Off && e.step - Max(w.lastCommandAt, w.lastMonitorAt) >= c.idleRelease && e.releaseEscapes
  }

  predicate HousekeepingThrows(c: Config, w: W, e: Env)
  {
    if !DueMonitor(c, w, e.step) then MonitorThrows(c, w, e)
    else
      match e.poll
      case PollEscapes => true
      case PollReset => e.releaseEscapes
      case Polled | PollTimedOut =>
        if c.monitor == DutyCycled && w.queue == [] then e.releaseEscapes
        else MonitorThrows(c, w.(lastMonitorAt := e.step), e)
  }

  /** Opening: before stale links are cleared there is an address only if one is left over; after the connection
      there is one. */
  predicate OpenThrows(w: W, e: Env)
  {
    e.open.Opened? &&
    if e.staleEscapes then w.address.Some?
    else
      e.discover.Found? && e.connect.ConnectDone?
      && (e.entry.EntryEscapes? || (e.entry.EntryReset? && e.releaseEscapes))
  }

  predicate StepThrows(c: Config, w: W, e: Env)
  {
    if w.leaseUntil > e.step then w.state in {Connected, Draining} && e.releaseEscapes
    else
      match w.state
      case Closed | PortBusy | PortLost | NoDevices | Leased => ShouldOpen(c, w, e.step) && OpenThrows(w, e)
      case Draining => BusThrows(e.drain, e)
      case Connected => HousekeepingThrows(c, w, e)
      case _ => false
  }

  predicate BodyThrows(c: Config, w: W, e: Env)
    requires HeadKnown(w)
  {
    WithHeadKeeps(w);
    var u := WithHead(w);
    if u.head.None? then StepThrows(c, RefreshLease(u, e.refresh), e)
    else
      var f := u.futures[u.head.value.id];
      var v := RefreshLease(RefreshLease(u, e.refresh), e.again);
      if v.state == Connected then (f == Pending && CommandThrows(v, e)) || f !in {Pending, Cancelled}
      else if FailFast(v.state) || e.deadline > u.head.value.linkDeadline then
        v.state == Draining && f !in {Pending, Cancelled}
      else StepThrows(c, v.(wantLink := true), e)
  }

  /** It escapes, and the link is still held and addressed. */
  predicate Holding(r: R)
  {
    r.escaped && r.w.link && r.w.address.Some?
  }

  lemma OpenHolding(w: W, e: Env)
    requires !w.link
    ensures Holding(OpenAndConnect(w, e)) <==> OpenThrows(w, e)
  {
    hide FailLink, GiveUp;
    var o := w.(state := Opening, log := w.log + [OpenAttempted]);
    var d := o.(link := true, address := None, state := Discovering);
    NoAddressNoThrow(d, Backoff, e);
    NoAddressNoThrow(d, NoDevices, e);
    NoAddressNoThrow(d.(state := Connecting), Backoff, e);
    if e.discover.Found? {
      FailLinkLetsGo(
        d.(state := Connecting, address := Some(e.discover.addr), wantLink := false), e.releaseEscapes, e.arm);
    }
  }

  lemma NoAddressNoThrow(w: W, state: LinkState, e: Env)
    requires w.address.None?
    ensures !GiveUp(w, state, e).escaped
  {}

  lemma MonitorHolding(c: Config, w: W, e: Env)
    requires w.link && w.address.Some?
    ensures Holding(AfterMonitor(c, w, e)) <==> MonitorThrows(c, w, e)
  {
    hide FailLink;
    FailLinkLetsGo(w.(lastKeepaliveAt := e.step), e.releaseEscapes, e.arm);
  }

  lemma UnlinkedNotHolding(c: Config, w: W, e: Env)
    requires !w.link
    ensures !Holding(AfterMonitor(c, w, e)) && !Holding(ReleaseAndClose(w, e))
  {}

  lemma HousekeepingHolding(c: Config, w: W, e: Env)
    requires Owned(w) && w.state == Connected
    ensures Holding(Housekeeping(c, w, e)) <==> HousekeepingThrows(c, w, e)
  {
    hide FailLink, AfterMonitor, MonitorThrows;
    MonitorHolding(c, w, e);
    var v := w.(lastMonitorAt := e.step);
    MonitorHolding(c, v, e);
    FailLinkLetsGo(v, e.releaseEscapes, e.arm);
    FailLinkBooks(v, e.releaseEscapes, e.arm);
    if e.poll.PollReset? && !e.releaseEscapes { UnlinkedNotHolding(c, FailLink(v, e.releaseEscapes, e.arm).w, e); }
  }

  lemma StepHolding(c: Config, w: W, e: Env)
    requires Owned(w)
    ensures Holding(Step(c, w, e)) <==> StepThrows(c, w, e)
  {
    hide OpenAndConnect, OpenThrows, Housekeeping, HousekeepingThrows, FailLink, ShouldOpen;
    var v := if w.state == Leased then w.(state := Closed) else w;
    SameAsking(c, w, v, e.step);
    if !v.link { OpenHolding(v, e); SameOpening(w, v, e); }
    if v.state == Connected { HousekeepingHolding(c, v, e); }
    FailLinkLetsGo(v, e.releaseEscapes, e.arm);
  }

  lemma SameOpening(w: W, v: W, e: Env)
    requires w.address == v.address
    ensures OpenThrows(w, e) == OpenThrows(v, e)
  {}

  lemma ClaimedHolding(w: W, id: nat, e: Env)
    requires Owned(w) && w.state == Connected && id < |w.futures|
    ensures Holding(ExecuteClaimed(w, id, e)) <==>
              (w.futures[id] == Pending && CommandThrows(w, e)) || w.futures[id] !in {Pending, Cancelled}
  {
    hide FailLink;
    if w.futures[id].Pending? {
      var u := w.(futures := w.futures[id := Running], log := w.log + [Started(id)]);
      FailLinkLetsGo(u, e.releaseEscapes, e.arm);
      FailLinkKeepsFutures(u, e.releaseEscapes, e.arm);
    }
  }

  lemma AbandonHolding(w: W, id: nat)
    requires Owned(w) && w.state != Connected && id < |w.futures|
    ensures Holding(Abandon(w, id)) <==> w.state == Draining && w.futures[id] !in {Pending, Cancelled}
  {}

  /** The command's turn: it throws with the link held, or is finished with, or waits. */
  lemma TryHolding(u: W, c: Command, e: Env)
    requires Owned(u) && c.id < |u.futures|
    ensures
      var f := u.futures[c.id];
      var x := RefreshLease(u, e.again);
      var t := TryExecute(u, c, e);
      if x.state == Connected then
        && (t.escaped || t.handled)
        && (Holding(R(t.w, t.escaped)) <==> (f == Pending && CommandThrows(x, e)) || f !in {Pending, Cancelled})
      else if FailFast(x.state) || e.deadline > c.linkDeadline then
        && (t.escaped || t.handled)
        && (Holding(R(t.w, t.escaped)) <==> x.state == Draining && f !in {Pending, Cancelled})
      else t == T(x.(wantLink := true), false, false)
  {
    hide ExecuteClaimed, Abandon, CommandThrows, Owned;
    var x := RefreshLease(u, e.again);
    RefreshOwned(u, e.again);
    if x.state == Connected { ClaimedHolding(x, c.id, e); } else { AbandonHolding(x, c.id); }
  }

  lemma BodyHolding(c: Config, w: W, e: Env)
    requires Owned(w) && HeadKnown(w)
    ensures Holding(Body(c, w, e)) <==> BodyThrows(c, w, e)
  {
    hide Step, StepThrows, TryExecute, CommandThrows, Take, Owned;
    HeadIsKnown(w, e.refresh);
    RefreshedWithHead(w, e.refresh);
    WithHeadOwned(w, e.refresh);
    var u := WithHead(RefreshLease(w, e.refresh));
    if u.head.None? {
      StepHolding(c, u, e);
    } else {
      TryHolding(u, u.head.value, e);
      var x := RefreshLease(u, e.again);
      RefreshOwned(u, e.again);
      WantingOwned(x);
      StepHolding(c, x.(wantLink := true), e);
    }
  }

  lemma RefreshOwned(w: W, now: int)
    requires Owned(w)
    ensures Owned(RefreshLease(w, now))
  {}

  lemma WantingOwned(w: W)
    requires Owned(w)
    ensures Owned(w.(wantLink := true))
  {}

  lemma WithHeadOwned(w: W, now: int)
    requires Owned(w)
    ensures Owned(WithHead(RefreshLease(w, now)))
  {
    hide Take;
    RefreshOwned(w, now);
    TakeOwned(RefreshLease(w, now));
  }

  /** Taking a command and refreshing the lease do not get in each other's way. */
  lemma RefreshedWithHead(w: W, now: int)
    ensures WithHead(RefreshLease(w, now)) == RefreshLease(WithHead(w), now)
  {
    hide NextUp;
  }

  /** Ownership holds after every pass, whatever escaped in it, as long as the thread lives. The thread dies
      exactly when something has escaped with the link held and addressed, and then the disconnect throws in the
      exception handler as well. */
  lemma PassOwned(c: Config, w: W, e: Env)
    requires Owned(w) && HeadKnown(w)
    ensures !Pass(c, w, e).escaped ==> Owned(Pass(c, w, e).w)
    ensures Pass(c, w, e).escaped <==> BodyThrows(c, w, e) && e.handlerReleaseEscapes
  {
    hide Body, FailLink, BodyThrows;
    BodyOwned(c, w, e);
    BodyHolding(c, w, e);
    FailLinkLetsGo(Body(c, w, e).w, e.handlerReleaseEscapes, e.handlerArm);
  }

  // ----- commands are conserved -----

  function Times(log: seq<Happening>, h: Happening): nat
  {
    multiset(log)[h]
  }

  predicate Waiting(w: W, id: nat)
  {
    exists k :: 0 <= k < |w.queue| && w.queue[k].id == id
  }

  predicate Held(w: W, id: nat)
  {
    w.head.Some? && w.head.value.id == id
  }

  predicate Finished(w: W, id: nat)
  {
    id < |w.futures| && (w.futures[id].Settled? || w.futures[id].Notified?)
  }

  /** What has happened to one command: started once if it was executed, settled once if it was settled. */
  ghost predicate Recorded(w: W, id: nat)
  {
    && Times(w.log, Started(id)) ==
         (if id < |w.futures| && (w.futures[id] == Running || w.futures[id] in {Settled(Result), Settled(Error)})
          then 1 else 0)
    && Times(w.log, Settling(id)) == (if id < |w.futures| && w.futures[id].Settled? then 1 else 0)
  }

  ghost predicate Booked(w: W)
  {
    && HeadKnown(w)
    && (forall i, k | 0 <= i < k < |w.queue| :: w.queue[i].id != w.queue[k].id)
    && (forall k | 0 <= k < |w.queue| :: w.futures[w.queue[k].id] in {Pending, Cancelled})
    && (w.head.Some? ==>
          && w.futures[w.head.value.id] in {Pending, Cancelled, Running}
          && forall k | 0 <= k < |w.queue| :: w.queue[k].id != w.head.value.id)
    && (forall id: nat | id < |w.futures| :: Waiting(w, id) || Held(w, id) || Finished(w, id))
    && (forall id: nat :: Recorded(w, id))
  }

  /** Every command submitted is in exactly one place: queued, at the head, or finished; it has been
      executed at most once and settled at most once. */
  lemma InOnePlace(w: W, id: nat)
    requires Booked(w) && id < |w.futures|
    ensures Waiting(w, id) || Held(w, id) || Finished(w, id)
    ensures !(Waiting(w, id) && Held(w, id)) && !(Waiting(w, id) && Finished(w, id))
    ensures !(Held(w, id) && Finished(w, id))
    ensures Times(w.log, Started(id)) <= 1 && Times(w.log, Settling(id)) <= 1
    ensures Waiting(w, id) ==> Times(w.log, Started(id)) == 0
  {
    assert Recorded(w, id);
  }

  /** Neither a command nor the log has changed. */
  predicate Untouched(w: W, v: W)
  {
    v.queue == w.queue && v.head == w.head && v.futures == w.futures && v.log == w.log
  }

  /** The link's business leaves the books alone. */
  ghost predicate SameBooks(w: W, v: W)
  {
    && v.queue == w.queue && v.head == w.head && v.futures == w.futures
    && forall id: nat ::
         && Times(v.log, Started(id)) == Times(w.log, Started(id))
         && Times(v.log, Settling(id)) == Times(w.log, Settling(id))
  }

  lemma SameBooksKeep(w: W, v: W)
    requires Booked(w) && SameBooks(w, v)
    ensures Booked(v)
  {
    hide Times;
    forall id: nat ensures Recorded(v, id) { assert Recorded(w, id); }
    forall id: nat | id < |v.futures| ensures Waiting(v, id) || Held(v, id) || Finished(v, id) {
      assert Waiting(w, id) || Held(w, id) || Finished(w, id);
      if Waiting(w, id) {
        var k :| 0 <= k < |w.queue| && w.queue[k].id == id;
        assert v.queue[k].id == id;
      }
    }
  }

  lemma SameBooksNoting(w: W, v: W, h: Happening)
    requires !h.Started? && !h.Settling?
    requires v.queue == w.queue && v.head == w.head && v.futures == w.futures
    requires (v.log == w.log || v.log == w.log + [h])
    ensures SameBooks(w, v)
  {}

  lemma SameBooksThrough(w: W, u: W, v: W)
    requires SameBooks(w, u) && SameBooks(u, v)
    ensures SameBooks(w, v)
  {
    hide Times;
  }

  lemma FailLinkBooks(w: W, escapes: bool, now: int)
    ensures var v := FailLink(w, escapes, now).w;
      Untouched(w, v) && v.address == w.address
  {}

  lemma GiveUpBooks(w: W, state: LinkState, e: Env)
    ensures var v := GiveUp(w, state, e).w; Untouched(w, v)
  {}

  lemma ConnectBooks(w: W, addr: byte, e: Env)
    ensures var v := ConnectTo(w, addr, e).w;
      && v.queue == w.queue && v.head == w.head && v.futures == w.futures
      && (v.log == w.log || v.log == w.log + [LinkUp])
  {
    hide FailLink, GiveUp;
    var o := w.(state := Connecting);
    GiveUpBooks(o, Backoff, e);
    FailLinkBooks(o.(address := Some(addr), wantLink := false), e.releaseEscapes, e.arm);
  }

  lemma OpenBooks(w: W, e: Env)
    ensures SameBooks(w, OpenAndConnect(w, e).w)
  {
    hide Times, ConnectTo, GiveUp, SameBooks;
    var o := w.(state := Opening, log := w.log + [OpenAttempted]);
    var d := o.(link := true, address := None, state := Discovering);
    GiveUpBooks(d, Backoff, e);
    GiveUpBooks(d, NoDevices, e);
    if e.discover.Found? { ConnectBooks(d, e.discover.addr, e); }
    SameBooksNoting(w, o, OpenAttempted);
    SameBooksNoting(o, OpenAndConnect(w, e).w, LinkUp);
    SameBooksThrough(w, o, OpenAndConnect(w, e).w);
  }

  lemma AfterMonitorBooks(c: Config, w: W, e: Env)
    ensures var v := AfterMonitor(c, w, e).w; Untouched(w, v)
  {
    hide FailLink;
    FailLinkBooks(w.(lastKeepaliveAt := e.step), e.releaseEscapes, e.arm);
  }

  lemma PollBooks(w: W, e: Env)
    ensures var v := PollAlarms(w, e).w; Untouched(w, v)
  {
    hide FailLink;
    FailLinkBooks(w, e.releaseEscapes, e.arm);
  }

  lemma HousekeepingBooks(c: Config, w: W, e: Env)
    ensures var v := Housekeeping(c, w, e).w; Untouched(w, v)
  {
    hide PollAlarms, AfterMonitor;
    var v := w.(lastMonitorAt := e.step);
    PollBooks(v, e);
    AfterMonitorBooks(c, w, e);
    AfterMonitorBooks(c, PollAlarms(v, e).w, e);
  }

  lemma StepBooks(c: Config, w: W, e: Env)
    ensures SameBooks(w, Step(c, w, e).w)
  {
    hide FailLink, OpenAndConnect, Housekeeping, Times, SameBooks;
    var v := if w.state == Leased then w.(state := Closed) else w;
    var r := Step(c, w, e).w;
    OpenBooks(v, e);
    HousekeepingBooks(c, v, e);
    FailLinkBooks(v, e.releaseEscapes, e.arm);
    SameBooksNoting(w, v, Drained);
    if v.state in {Closed, PortBusy, PortLost, NoDevices} && w.leaseUntil <= e.step && ShouldOpen(c, v, e.step) {
      SameBooksThrough(w, v, r);
    } else {
      SameBooksNoting(w, r, Drained);
    }
  }

  lemma TakeBooks(w: W)
    requires Booked(w) && w.head.None?
    ensures Booked(Take(w))
  {
    hide NextUp, Times;
    if w.queue != [] {
      var k := NextUp(w.queue);
      var v := Take(w);
      forall id: nat ensures Recorded(v, id) { assert Recorded(w, id); }
      forall id: nat | id < |v.futures| ensures Waiting(v, id) || Held(v, id) || Finished(v, id) {
        assert Waiting(w, id) || Held(w, id) || Finished(w, id);
        if Waiting(w, id) {
          var i :| 0 <= i < |w.queue| && w.queue[i].id == id;
          if i < k { assert v.queue[i].id == id; } else if i > k { assert v.queue[i - 1].id == id; }
        }
      }
    }
  }

  /** The head's future changes hands: from `w` to `v`, with what has been logged about it. */
  lemma HeadBooks(w: W, v: W)
    requires Booked(w) && w.head.Some? && v.queue == w.queue && v.head == w.head
    requires |v.futures| == |w.futures| && v.futures == w.futures[w.head.value.id := v.futures[w.head.value.id]]
    requires v.futures[w.head.value.id] in {Pending, Cancelled, Running}
    requires forall id: nat :: Recorded(v, id)
    ensures Booked(v)
  {
    hide Times, Recorded;
    forall id: nat | id < |v.futures| ensures Waiting(v, id) || Held(v, id) || Finished(v, id) {
      assert Waiting(w, id) || Held(w, id) || Finished(w, id);
      if Waiting(w, id) {
        var k :| 0 <= k < |w.queue| && w.queue[k].id == id;
        assert v.queue[k].id == id;
      }
    }
  }

  /** The head is finished with. */
  lemma DoneBooks(w: W, v: W)
    requires Booked(w) && w.head.Some? && v.queue == w.queue && v.head == None
    requires |v.futures| == |w.futures| && v.futures == w.futures[w.head.value.id := v.futures[w.head.value.id]]
    requires Finished(v, w.head.value.id)
    requires forall id: nat :: Recorded(v, id)
    ensures Booked(v)
  {
    hide Times, Recorded;
    forall id: nat | id < |v.futures| ensures Waiting(v, id) || Held(v, id) || Finished(v, id) {
      assert Waiting(w, id) || Held(w, id) || Finished(w, id);
      if Waiting(w, id) {
        var k :| 0 <= k < |w.queue| && w.queue[k].id == id;
        assert v.queue[k].id == id;
      }
    }
  }

  /** What the log of one command's end may add. */
  ghost predicate Tells(more: seq<Happening>, id: nat, f: Future)
  {
    && (forall h | h in more :: (h.Started? || h.Settling?) ==> h.id == id)
    && Times(more, Started(id)) == (if f == Running || f in {Settled(Result), Settled(Error)} then 1 else 0)
    && Times(more, Settling(id)) == (if f.Settled? then 1 else 0)
  }

  lemma RecordMore(w: W, v: W, id: nat, more: seq<Happening>)
    requires (forall i: nat :: Recorded(w, i)) && id < |w.futures| == |v.futures|
    requires w.futures[id] in {Pending, Cancelled}
    requires v.log == w.log + more && v.futures == w.futures[id := v.futures[id]] && Tells(more, id, v.futures[id])
    ensures forall i: nat :: Recorded(v, i)
  {
    assert multiset(w.log + more) == multiset(w.log) + multiset(more);
    forall i: nat ensures Recorded(v, i) {
      assert Recorded(w, i);
      if i != id {
        assert Started(i) !in more && Settling(i) !in more;
      }
    }
  }

  lemma AbandonTells(w: W, id: nat)
    requires id < |w.futures| && w.futures[id] in {Pending, Cancelled}
    ensures var v := Abandon(w, id).w; var more := v.log[|w.log|..];
      && v.log == w.log + more && v.futures == w.futures[id := v.futures[id]] && Tells(more, id, v.futures[id])
      && Finished(v, id) && v.queue == w.queue && v.head == w.head && !Abandon(w, id).escaped
  {
    var v := Abandon(w, id).w;
    var more := v.log[|w.log|..];
    assert more == if w.futures[id].Pending? then [Settling(id)] else [];
  }

  /** An exception nobody caught gets past the command that is executed. */
  predicate CommandThrows(w: W, e: Env)
  {
    || e.command.ArgumentEscapes? || e.command.CommandEscapes?
    || (e.command.DeviceReset? && w.link && w.address.Some? && e.releaseEscapes)
  }

  /** What claiming a command's future leads to, and what is noted on the way. */
  function ClaimedBecomes(w: W, f: Future, e: Env): Future
  {
    if f != Pending then Notified
    else if CommandThrows(w, e) then Running
    else Settled(if e.command.Success? then Result else Error)
  }

  function EndTells(w: W, id: nat, e: Env): seq<Happening>
  {
    if CommandThrows(w, e) then []
    else if e.command.AckedTimeout? then [TimedOutAcked, Settling(id)]
    else [Settling(id)]
  }

  function ClaimedTells(w: W, f: Future, id: nat, e: Env): seq<Happening>
  {
    if f != Pending then [] else [Started(id)] + EndTells(w, id, e)
  }

  lemma ExecuteOutcome(w: W, id: nat, e: Env)
    requires id < |w.futures|
    ensures var r := Execute(w, id, e);
      && r.w.log == w.log + EndTells(w, id, e)
      && r.w.futures == (if CommandThrows(w, e) then w.futures
                         else w.futures[id := Settled(if e.command.Success? then Result else Error)])
      && r.w.queue == w.queue && r.w.head == w.head && (r.escaped <==> CommandThrows(w, e))
  {
    hide FailLink, Settle;
    if e.command.DeviceReset? {
      FailLinkLetsGo(w, e.releaseEscapes, e.arm);
      FailLinkBooks(w, e.releaseEscapes, e.arm);
      SettleOutcome(FailLink(w, e.releaseEscapes, e.arm).w, id, Error);
    } else if e.command.AckedTimeout? {
      SettleOutcome(w.(state := Draining, log := w.log + [TimedOutAcked]), id, Error);
      assert w.log + [TimedOutAcked] + [Settling(id)] == w.log + [TimedOutAcked, Settling(id)];
    } else {
      SettleOutcome(w, id, if e.command.Success? then Result else Error);
    }
  }

  lemma SettleOutcome(w: W, id: nat, how: Settlement)
    requires id < |w.futures|
    ensures var v := Settle(w, id, how);
      && v.log == w.log + [Settling(id)] && v.futures == w.futures[id := Settled(how)]
      && v.queue == w.queue && v.head == w.head
  {}

  lemma ClaimedOutcome(w: W, id: nat, e: Env)
    requires id < |w.futures| && w.futures[id] in {Pending, Cancelled}
    ensures var r := ExecuteClaimed(w, id, e);
      && r.w.log == w.log + ClaimedTells(w, w.futures[id], id, e)
      && r.w.futures == w.futures[id := ClaimedBecomes(w, w.futures[id], e)]
      && r.w.queue == w.queue && r.w.head == w.head
      && (r.escaped <==> w.futures[id] == Pending && CommandThrows(w, e))
  {
    hide Execute, EndTells;
    var u := w.(futures := w.futures[id := Running], log := w.log + [Started(id)]);
    ExecuteOutcome(u, id, e);
    SameEnd(w, u, id, e);
  }

  lemma SameEnd(w: W, u: W, id: nat, e: Env)
    requires w.link == u.link && w.address == u.address
    ensures CommandThrows(w, e) == CommandThrows(u, e) && EndTells(w, id, e) == EndTells(u, id, e)
  {}

  lemma OneStart(id: nat, how: Settlement)
    requires how != Unavailable
    ensures Tells([], id, Notified)
    ensures Tells([Started(id)], id, Running)
    ensures Tells([Started(id), Settling(id)], id, Settled(how))
  {}

  lemma OneTimeout(id: nat)
    ensures Tells([Started(id), TimedOutAcked, Settling(id)], id, Settled(Error))
  {}

  lemma ClaimedRecord(w: W, id: nat, e: Env)
    requires id < |w.futures| && w.futures[id] in {Pending, Cancelled}
    ensures Tells(ClaimedTells(w, w.futures[id], id, e), id, ClaimedBecomes(w, w.futures[id], e))
  {
    hide Tells;
    OneStart(id, Result);
    OneStart(id, Error);
    OneTimeout(id);
    assert [Started(id)] + [] == [Started(id)];
    assert [Started(id)] + [Settling(id)] == [Started(id), Settling(id)];
    assert [Started(id)] + [TimedOutAcked, Settling(id)] == [Started(id), TimedOutAcked, Settling(id)];
  }

  lemma ClaimedBooks(w: W, e: Env)
    requires Booked(w) && w.head.Some? && w.futures[w.head.value.id] in {Pending, Cancelled}
    ensures var r := ExecuteClaimed(w, w.head.value.id, e);
      if r.escaped then Booked(r.w) else Booked(r.w.(head := None))
  {
    hide ExecuteClaimed, Tells, Recorded, ClaimedTells, CommandThrows;
    var id := w.head.value.id;
    ClaimedOutcome(w, id, e);
    ClaimedRecord(w, id, e);
    var v := ExecuteClaimed(w, id, e).w;
    RecordMore(w, v, id, ClaimedTells(w, w.futures[id], id, e));
    if ExecuteClaimed(w, id, e).escaped {
      HeadBooks(w, v);
    } else {
      SameRecord(v, v.(head := None));
      DoneBooks(w, v.(head := None));
    }
  }

  lemma AbandonBooks(w: W)
    requires Booked(w) && w.head.Some? && w.futures[w.head.value.id] in {Pending, Cancelled}
    ensures var r := Abandon(w, w.head.value.id); !r.escaped && Booked(r.w.(head := None))
  {
    hide Abandon, Tells, Recorded;
    AbandonTells(w, w.head.value.id);
    var v := Abandon(w, w.head.value.id).w;
    RecordMore(w, v, w.head.value.id, v.log[|w.log|..]);
    SameRecord(v, v.(head := None));
    DoneBooks(w, v.(head := None));
  }

  /** The head when its turn has come: finished, still waiting for the link, or left running by an exception. */
  lemma TryBooks(w: W, e: Env)
    requires Booked(w) && w.head.Some?
    ensures var t := TryExecute(w, w.head.value, e);
      if t.handled && !t.escaped then Booked(t.w.(head := None)) else Booked(t.w)
  {
    hide ExecuteClaimed, Abandon, Booked;
    var id := w.head.value.id;
    var v := RefreshLease(w, e.again);
    IdleBooks(w, v);
    IdleBooks(w, v.(wantLink := true));
    BookedHead(v);
    if v.futures[id] == Running {
      RunningRefuses(v, id, e);
    } else {
      ClaimedBooks(v, e);
      AbandonBooks(v);
    }
  }

  lemma IdleBooks(w: W, v: W)
    requires Booked(w) && Untouched(w, v)
    ensures Booked(v)
  {
    hide Booked, SameBooks;
    SameBooksNoting(w, v, Drained);
    SameBooksKeep(w, v);
  }

  lemma BookedHead(w: W)
    requires Booked(w) && w.head.Some?
    ensures w.head.value.id < |w.futures| && w.futures[w.head.value.id] in {Pending, Cancelled, Running}
  {}

  lemma SameRecord(w: W, v: W)
    requires w.log == v.log && w.futures == v.futures && forall id: nat :: Recorded(w, id)
    ensures forall id: nat :: Recorded(v, id)
  {
    forall id: nat ensures Recorded(v, id) { assert Recorded(w, id); }
  }

  lemma RunningRefuses(w: W, id: nat, e: Env)
    requires id < |w.futures| && w.futures[id] == Running
    ensures ExecuteClaimed(w, id, e) == R(w, true) && Abandon(w, id) == R(w, true)
  {}

  lemma BodyBooks(c: Config, w: W, e: Env)
    requires Booked(w)
    ensures Booked(Body(c, w, e).w)
  {
    hide Booked, Step, TryExecute, Take, SameBooks;
    BookedKnown(w);
    var v := RefreshLease(w, e.refresh);
    IdleBooks(w, v);
    if v.head.None? { TakeBooks(v); }
    var u := if v.head.None? then Take(v) else v;
    HeadIsKnown(w, e.refresh);
    if u.head.None? {
      StepBooks(c, u, e);
      SameBooksKeep(u, Step(c, u, e).w);
    } else {
      TryBooks(u, e);
      var t := TryExecute(u, u.head.value, e);
      if !t.escaped && !t.handled {
        StepBooks(c, t.w, e);
        SameBooksKeep(t.w, Step(c, t.w, e).w);
      }
    }
  }

  lemma BookedKnown(w: W)
    requires Booked(w)
    ensures HeadKnown(w)
  {}

  lemma PassBooks(c: Config, w: W, e: Env)
    requires Booked(w)
    ensures Booked(Pass(c, w, e).w)
  {
    hide Booked, Body, FailLink;
    BookedKnown(w);
    BodyBooks(c, w, e);
    var r := Body(c, w, e);
    FailLinkBooks(r.w, e.handlerReleaseEscapes, e.handlerArm);
    IdleBooks(r.w, FailLink(r.w, e.handlerReleaseEscapes, e.handlerArm).w);
  }

  lemma SubmitBooks(w: W, priority: int, linkDeadline: int)
    requires Booked(w)
    ensures Booked(Submit(w, priority, linkDeadline))
  {
    hide Times;
    var v := Submit(w, priority, linkDeadline);
    var n := |w.futures|;
    assert v.queue[|w.queue|].id == n;
    forall id: nat ensures Recorded(v, id) { assert Recorded(w, id); }
    forall id: nat | id < |v.futures| ensures Waiting(v, id) || Held(v, id) || Finished(v, id) {
      if id < n {
        assert Waiting(w, id) || Held(w, id) || Finished(w, id);
        if Waiting(w, id) {
          var k :| 0 <= k < |w.queue| && w.queue[k].id == id;
          assert v.queue[k].id == id;
        }
      }
    }
  }

  lemma CancelBooks(w: W, id: nat)
    requires Booked(w)
    ensures Booked(Cancel(w, id))
  {
    hide Times;
    var v := Cancel(w, id);
    forall i: nat ensures Recorded(v, i) { assert Recorded(w, i); }
    forall i: nat | i < |v.futures| ensures Waiting(v, i) || Held(v, i) || Finished(v, i) {
      assert Waiting(w, i) || Held(w, i) || Finished(w, i);
      if Waiting(w, i) {
        var k :| 0 <= k < |w.queue| && w.queue[k].id == i;
        assert v.queue[k].id == i;
      }
    }
  }

  // ----- runs -----

  datatype Act = Submits(priority: int, linkDeadline: int) | Cancels(id: nat) | Leases(until: int) | Passes(e: Env)

  function Do(c: Config, w: W, a: Act): R
    requires HeadKnown(w)
  {
    match a
    case Submits(priority, linkDeadline) => R(Submit(w, priority, linkDeadline), false)
    case Cancels(id) => R(Cancel(w, id), false)
    case Leases(until) => R(Lease(w, until), false)
    case Passes(e) => Pass(c, w, e)
  }

  lemma DoBooks(c: Config, w: W, a: Act)
    requires Booked(w)
    ensures Booked(Do(c, w, a).w)
  {
    hide Booked, Pass, Submit, Cancel;
    BookedKnown(w);
    match a
    case Submits(priority, linkDeadline) => SubmitBooks(w, priority, linkDeadline);
    case Cancels(id) => CancelBooks(w, id);
    case Leases(until) => IdleBooks(w, Lease(w, until));
    case Passes(e) => PassBooks(c, w, e);
  }

  /** Everything that happens up to the end of the list, or to the death of the thread. */
  ghost function Run(c: Config, w: W, acts: seq<Act>): R
    requires Booked(w)
    decreases |acts|
  {
    BookedKnown(w);
    if acts == [] then R(w, false)
    else
      var r := Do(c, w, acts[0]);
      DoBooks(c, w, acts[0]);
      if r.escaped then r else Run(c, r.w, acts[1..])
  }

  lemma StartGood()
    ensures Booked(START) && Owned(START) && Quarantined(START)
  {}

  lemma {:induction false} RunBooks(c: Config, w: W, acts: seq<Act>)
    requires Booked(w)
    ensures Booked(Run(c, w, acts).w)
    decreases |acts|
  {
    hide Booked, Do;
    if acts != [] {
      BookedKnown(w);
      DoBooks(c, w, acts[0]);
      var r := Do(c, w, acts[0]);
      if !r.escaped { RunBooks(c, r.w, acts[1..]); }
    }
  }

  /** At every step of every run each submitted command is in exactly one place, has been executed at most
      once and settled at most once - whatever exceptions commands raise. */
  lemma CommandsConserved(c: Config, acts: seq<Act>)
    ensures Booked(START)
    ensures var w := Run(c, START, acts).w;
      forall id: nat | id < |w.futures| ::
        && (Waiting(w, id) || Held(w, id) || Finished(w, id))
        && !(Waiting(w, id) && Held(w, id)) && !(Waiting(w, id) && Finished(w, id)) && !(Held(w, id) && Finished(w, id))
        && Times(w.log, Started(id)) <= 1 && Times(w.log, Settling(id)) <= 1
  {
    StartGood();
    hide Booked, Waiting, Held, Finished, Times, Quarantined, Owned;
    RunBooks(c, START, acts);
    var w := Run(c, START, acts).w;
    forall id: nat | id < |w.futures|
      ensures (Waiting(w, id) || Held(w, id) || Finished(w, id))
        && !(Waiting(w, id) && Held(w, id)) && !(Waiting(w, id) && Finished(w, id)) && !(Held(w, id) && Finished(w, id))
        && Times(w.log, Started(id)) <= 1 && Times(w.log, Settling(id)) <= 1
    {
      InOnePlace(w, id);
    }
  }

  lemma OtherOwned(c: Config, w: W, a: Act)
    requires Owned(w) && HeadKnown(w) && !a.Passes?
    ensures Owned(Do(c, w, a).w) && !Do(c, w, a).escaped
  {}

  /** Ownership at every loop boundary of every run. */
  lemma {:induction false} OwnershipKept(c: Config, w: W, acts: seq<Act>)
    requires Booked(w) && Owned(w) && !Run(c, w, acts).escaped
    ensures Owned(Run(c, w, acts).w)
    decreases |acts|
  {
    hide Booked, Owned, Pass;
    if acts != [] {
      BookedKnown(w);
      DoBooks(c, w, acts[0]);
      if acts[0].Passes? { PassOwned(c, w, acts[0].e); } else { OtherOwned(c, w, acts[0]); }
      OwnershipKept(c, Do(c, w, acts[0]).w, acts[1..]);
    }
  }

  // ----- quarantine -----

  /** A command timed out acknowledged, and since then no drain has been completed and no fresh connection made.
      What a completed drain is worth is not said here: Quarantine.QuarantineExactly does. */
  predicate Owing(log: seq<Happening>)
  {
    log != [] &&
    var last := log[|log| - 1];
    last.TimedOutAcked? || (!last.Drained? && !last.LinkUp? && Owing(log[..|log| - 1]))
  }

  /** No command was started while one was owing. */
  predicate NeverWhileOwing(log: seq<Happening>)
  {
    log == [] ||
    (NeverWhileOwing(log[..|log| - 1]) && (log[|log| - 1].Started? ==> !Owing(log[..|log| - 1])))
  }

  ghost predicate Quarantined(w: W)
  {
    NeverWhileOwing(w.log) && (Owing(w.log) ==> w.state != Connected)
  }

  lemma Noted(log: seq<Happening>, h: Happening)
    ensures Owing(log + [h]) <==> h.TimedOutAcked? || (!h.Drained? && !h.LinkUp? && Owing(log))
    ensures NeverWhileOwing(log + [h]) <==> NeverWhileOwing(log) && (h.Started? ==> !Owing(log))
  {
    assert (log + [h])[..|log|] == log;
  }

  /** Nothing new in the log, and not connected unless it was. */
  lemma QuietQuarantine(w: W, v: W)
    requires Quarantined(w) && v.log == w.log && (v.state == Connected ==> w.state == Connected)
    ensures Quarantined(v)
  {}

  lemma FailLinkState(w: W, escapes: bool, now: int)
    ensures var v := FailLink(w, escapes, now).w; v.log == w.log && v.state != Connected
  {}

  lemma GiveUpState(w: W, state: LinkState, e: Env)
    requires w.state != Connected && state != Connected
    ensures var v := GiveUp(w, state, e).w; v.log == w.log && v.state != Connected
  {}

  lemma ConnectState(w: W, addr: byte, e: Env)
    ensures var v := ConnectTo(w, addr, e).w;
      if v.state == Connected then v.log == w.log + [LinkUp] else v.log == w.log
  {
    hide GiveUp, FailLink;
    GiveUpState(w.(state := Connecting), Backoff, e);
    FailLinkState(w.(state := Connecting, address := Some(addr), wantLink := false), e.releaseEscapes, e.arm);
  }

  lemma OpenState(w: W, e: Env)
    ensures var v := OpenAndConnect(w, e).w;
      if v.state == Connected then v.log == w.log + [OpenAttempted] + [LinkUp] else v.log == w.log + [OpenAttempted]
  {
    hide GiveUp, ConnectTo;
    var d := w.(state := Discovering, log := w.log + [OpenAttempted], link := true, address := None);
    GiveUpState(d, Backoff, e);
    GiveUpState(d, NoDevices, e);
    if e.discover.Found? { ConnectState(d, e.discover.addr, e); }
  }

  lemma OpenQuarantined(w: W, e: Env)
    requires Quarantined(w)
    ensures Quarantined(OpenAndConnect(w, e).w)
  {
    hide OpenAndConnect, Owing, NeverWhileOwing;
    OpenState(w, e);
    Noted(w.log, OpenAttempted);
    Noted(w.log + [OpenAttempted], LinkUp);
  }

  lemma DrainQuarantined(w: W, e: Env)
    requires Quarantined(w)
    ensures Quarantined(Drain(w, e).w)
  {
    hide FailLink, Owing, NeverWhileOwing;
    FailLinkState(w, e.releaseEscapes, e.arm);
    Noted(w.log, Drained);
  }

  lemma AfterMonitorState(c: Config, w: W, e: Env)
    ensures var v := AfterMonitor(c, w, e).w; v.log == w.log && (v.state == Connected ==> w.state == Connected)
  {
    hide FailLink;
    FailLinkState(w.(lastKeepaliveAt := e.step), e.releaseEscapes, e.arm);
  }

  lemma HousekeepingState(c: Config, w: W, e: Env)
    ensures var v := Housekeeping(c, w, e).w; v.log == w.log && (v.state == Connected ==> w.state == Connected)
  {
    hide FailLink, AfterMonitor;
    var v := w.(lastMonitorAt := e.step);
    FailLinkState(v, e.releaseEscapes, e.arm);
    AfterMonitorState(c, w, e);
    AfterMonitorState(c, PollAlarms(v, e).w, e);
  }

  lemma StepQuarantined(c: Config, w: W, e: Env)
    requires Quarantined(w)
    ensures Quarantined(Step(c, w, e).w)
  {
    hide OpenAndConnect, Drain, Housekeeping, Owing, NeverWhileOwing;
    var v := if w.state == Leased then w.(state := Closed) else w;
    OpenQuarantined(v, e);
    DrainQuarantined(v, e);
    HousekeepingState(c, v, e);
  }

  lemma ExecuteDrains(w: W, id: nat, e: Env)
    requires id < |w.futures| && w.futures[id] == Pending && e.command.AckedTimeout?
    ensures ExecuteClaimed(w, id, e).w.state == Draining
  {}

  lemma TellsQuarantined(w: W, id: nat, e: Env)
    requires Quarantined(w) && w.state == Connected
    ensures var log := w.log + ClaimedTells(w, Pending, id, e);
      NeverWhileOwing(log) && (Owing(log) ==> e.command.AckedTimeout?)
  {
    hide Owing, NeverWhileOwing;
    var log := w.log;
    Noted(log, Started(id));
    Noted(log + [Started(id)], TimedOutAcked);
    Noted(log + [Started(id)] + [TimedOutAcked], Settling(id));
    Noted(log + [Started(id)], Settling(id));
    assert log + ([Started(id)] + [TimedOutAcked, Settling(id)])
        == log + [Started(id)] + [TimedOutAcked] + [Settling(id)];
    assert log + ([Started(id)] + [Settling(id)]) == log + [Started(id)] + [Settling(id)];
    assert log + ([Started(id)] + []) == log + [Started(id)];
  }

  lemma ClaimedQuarantined(w: W, id: nat, e: Env)
    requires Quarantined(w) && w.state == Connected && id < |w.futures|
    ensures Quarantined(ExecuteClaimed(w, id, e).w)
  {
    hide Execute, Owing, NeverWhileOwing, EndTells;
    if w.futures[id].Pending? {
      ClaimedOutcome(w, id, e);
      TellsQuarantined(w, id, e);
      if e.command.AckedTimeout? { ExecuteDrains(w, id, e); }
    }
  }

  lemma AbandonQuarantined(w: W, id: nat)
    requires Quarantined(w) && id < |w.futures|
    ensures Quarantined(Abandon(w, id).w)
  {
    hide Owing, NeverWhileOwing;
    Noted(w.log, Settling(id));
  }

  lemma TryQuarantined(w: W, c: Command, e: Env)
    requires Quarantined(w) && c.id < |w.futures|
    ensures Quarantined(TryExecute(w, c, e).w)
  {
    hide ExecuteClaimed, Abandon, Owing, NeverWhileOwing;
    var v := RefreshLease(w, e.again);
    QuietQuarantine(w, v);
    if v.state == Connected { ClaimedQuarantined(v, c.id, e); }
    AbandonQuarantined(v, c.id);
  }

  lemma PassQuarantined(c: Config, w: W, e: Env)
    requires Quarantined(w) && HeadKnown(w)
    ensures Quarantined(Pass(c, w, e).w)
  {
    hide FailLink, Body, Quarantined;
    BodyQuarantined(c, w, e);
    var r := Body(c, w, e);
    FailLinkState(r.w, e.handlerReleaseEscapes, e.handlerArm);
    QuietQuarantine(r.w, FailLink(r.w, e.handlerReleaseEscapes, e.handlerArm).w);
  }

  lemma BodyQuarantined(c: Config, w: W, e: Env)
    requires Quarantined(w) && HeadKnown(w)
    ensures Quarantined(Body(c, w, e).w)
  {
    hide Step, TryExecute, NextUp, Quarantined;
    var v := RefreshLease(w, e.refresh);
    QuietQuarantine(w, v);
    var u := if v.head.None? then Take(v) else v;
    QuietQuarantine(v, u);
    HeadIsKnown(w, e.refresh);
    if u.head.None? {
      StepQuarantined(c, u, e);
    } else {
      TryQuarantined(u, u.head.value, e);
      var t := TryExecute(u, u.head.value, e);
      StepQuarantined(c, t.w, e);
      QuietQuarantine(t.w, t.w.(head := None));
    }
  }

  /** Over every run no command is started between a timeout that was acknowledged and the end of the next
      drain, or a fresh connection. */
  lemma {:induction false} QuarantineKept(c: Config, w: W, acts: seq<Act>)
    requires Booked(w) && Quarantined(w)
    ensures Quarantined(Run(c, w, acts).w)
    decreases |acts|
  {
    hide Booked, Quarantined, Pass;
    if acts != [] {
      BookedKnown(w);
      DoBooks(c, w, acts[0]);
      if acts[0].Passes? { PassQuarantined(c, w, acts[0].e); } else { QuietQuarantine(w, Do(c, w, acts[0]).w); }
      var r := Do(c, w, acts[0]);
      if !r.escaped { QuarantineKept(c, r.w, acts[1..]); }
    }
  }

  lemma {:induction false} OwingUntil(log: seq<Happening>, i: nat, j: nat)
    requires i < j <= |log| && log[i].TimedOutAcked? && !Owing(log[..j])
    ensures exists k :: i < k < j && (log[k].Drained? || log[k].LinkUp?)
    decreases j
  {
    assert log[..j][..j - 1] == log[..j - 1];
    if !(log[j - 1].Drained? || log[j - 1].LinkUp?) {
      OwingUntil(log, i, j - 1);
    }
  }

  lemma {:induction false} NeverWhileOwingAt(log: seq<Happening>, j: nat)
    requires NeverWhileOwing(log) && j < |log| && log[j].Started?
    ensures !Owing(log[..j])
  {
    if j < |log| - 1 {
      assert log[..|log| - 1][..j] == log[..j];
      NeverWhileOwingAt(log[..|log| - 1], j);
    }
  }

  /** The same, event by event. */
  lemma QuarantineBetween(c: Config, acts: seq<Act>)
    ensures Booked(START)
    ensures var log := Run(c, START, acts).w.log;
      forall i, j | 0 <= i < j < |log| && log[i].TimedOutAcked? && log[j].Started? ::
        exists k :: i < k < j && (log[k].Drained? || log[k].LinkUp?)
  {
    StartGood();
    hide Booked, Run, Owing, NeverWhileOwing, Owned;
    QuarantineKept(c, START, acts);
    var log := Run(c, START, acts).w.log;
    forall i, j | 0 <= i < j < |log| && log[i].TimedOutAcked? && log[j].Started?
      ensures exists k :: i < k < j && (log[k].Drained? || log[k].LinkUp?)
    {
      NeverWhileOwingAt(log, j);
      OwingUntil(log, i, j);
    }
  }

  /** An alarm poll that times out acknowledged is not followed by a drain. The step leaves CONNECTED, and so what the
      device owes behind, exactly unless a duty cycle then gives the link back or the keep-alive ends it; */
  lemma PollTimeoutNotDrained(c: Config, w: W, e: Env)
    requires w.state == Connected && w.leaseUntil <= e.step && DueMonitor(c, w, e.step) && e.poll == PollTimedOut
    ensures var r := Step(c, w, e);
      && r.w.log == w.log && r.w.state != Draining
      && (r.w.state == Connected && !r.escaped <==>
            if c.monitor == DutyCycled then w.queue != []
            else e.step - w.lastKeepaliveAt < c.keepalive || (w.link && e.keepalive == BusDone))
  {
    hide FailLink;
    var v := w.(lastMonitorAt := e.step, lastKeepaliveAt := e.step);
    FailLinkState(v, e.releaseEscapes, e.arm);
    FailLinkEnds(v, e.releaseEscapes, e.arm);
  }

  lemma FailLinkEnds(w: W, escapes: bool, now: int)
    ensures FailLink(w, escapes, now).w.state in {Releasing, Backoff}
  {}

  /** and a command submitted then is started by the next pass. */
  lemma StartedAtOnce(c: Config, w: W, priority: int, linkDeadline: int, f: Env)
    requires w.state == Connected && w.head.None? && w.queue == []
    ensures HeadKnown(Submit(w, priority, linkDeadline))
    ensures w.log + [Started(|w.futures|)] <= Pass(c, Submit(w, priority, linkDeadline), f).w.log
  {
    hide FailLink, Step;
    var command := Command(priority, |w.futures|, linkDeadline);
    var v := Submit(w, priority, linkDeadline);
    assert v.queue == [command];
    assert Take(v) == v.(head := Some(command), queue := []);
    StartsFirst(Take(v), command.id, f);
    var t := TryExecute(Take(v), command, f);
    FailLinkState(t.w, f.handlerReleaseEscapes, f.handlerArm);
  }

  lemma StartsFirst(w: W, id: nat, e: Env)
    requires id < |w.futures| && w.futures[id] == Pending
    ensures w.log + [Started(id)] <= ExecuteClaimed(w, id, e).w.log
  {
    hide FailLink;
    FailLinkState(w.(futures := w.futures[id := Running], log := w.log + [Started(id)]), e.releaseEscapes, e.arm);
  }

  /** Ownership from the start: at every loop boundary of every run in which the thread lives. */
  lemma OwnershipFromStart(c: Config, acts: seq<Act>)
    ensures Booked(START)
    ensures !Run(c, START, acts).escaped ==> Owned(Run(c, START, acts).w)
  {
    StartGood();
    hide Booked, Run, Owned, Quarantined;
    if !Run(c, START, acts).escaped { OwnershipKept(c, START, acts); }
  }

  // ----- leases -----

  /** Every reading of the clock in this pass falls before `t`. */
  predicate Reads(e: Env, t: int)
  {
    e.refresh < t && e.again < t && e.step < t
  }

  /** The port is closed and nothing waits for it. */
  ghost predicate Calm(w: W)
  {
    !w.link && w.state in {Leased, Backoff}
  }

  /** The first step under a lease closes the port, unless the disconnect throws. */
  lemma LeaseClosesPort(c: Config, w: W, e: Env)
    requires Owned(w) && e.step < w.leaseUntil
    ensures var r := Step(c, w, e);
      && (r.escaped <==> w.link && e.releaseEscapes)
      && (!r.escaped ==> Calm(r.w) && r.w.state == Leased)
      && r.w.log == w.log
  {}

  /** A command refused, at most. */
  ghost predicate OnlyRefuses(w: W, v: W)
  {
    && |v.futures| == |w.futures|
    && (forall id | 0 <= id < |w.futures| && v.futures[id] != w.futures[id] ::
          || (w.futures[id] == Pending && v.futures[id] == Settled(Unavailable))
          || (w.futures[id] == Cancelled && v.futures[id] == Notified))
    && w.log <= v.log && (forall h | h in v.log[|w.log|..] :: h.Settling?)
  }

  lemma AbandonRefuses(w: W, id: nat)
    requires id < |w.futures|
    ensures var r := Abandon(w, id);
      OnlyRefuses(w, r.w) && r.w.state == w.state && r.w.link == w.link && r.w.leaseUntil == w.leaseUntil
    ensures var r := Abandon(w, id); (r.escaped <==> w.futures[id] !in {Pending, Cancelled}) && (r.escaped ==> r.w == w)
  {
    var v := Abandon(w, id).w;
    assert v.log[|w.log|..] == [] || v.log[|w.log|..] == [Settling(id)];
  }

  /** The worker once it has a command, if there is one. */
  function WithHead(w: W): W
  {
    if w.head.None? then Take(w) else w
  }

  lemma WithHeadKeeps(w: W)
    requires HeadKnown(w)
    ensures var u := WithHead(w);
      && HeadKnown(u) && u.futures == w.futures && u.log == w.log && u.state == w.state && u.link == w.link
      && u.leaseUntil == w.leaseUntil && (u.head.Some? ==> u.head.value.id < |u.futures|)
      && (u.head.None? ==> u == w && w.queue == [])
  {
    hide NextUp;
  }

  lemma CalmTry(u: W, c: Command, e: Env)
    requires c.id < |u.futures| && Calm(u) && Reads(e, u.leaseUntil)
    ensures var r := Abandon(u, c.id); TryExecute(u, c, e) == T(r.w, r.escaped, !r.escaped)
  {
    hide Abandon, ExecuteClaimed;
  }

  lemma CalmBody(c: Config, w: W, e: Env)
    requires HeadKnown(w) && Calm(w) && Reads(e, w.leaseUntil)
    ensures var u := WithHead(w);
      && (u.head.Some? ==> u.head.value.id < |u.futures|)
      && Body(c, w, e) ==
        if u.head.None? then R(w.(state := Leased), false)
        else
          var r := Abandon(u, u.head.value.id);
          if r.escaped then r else R(r.w.(head := None), false)
  {
    hide Abandon, Take, TryExecute, StepFree;
    WithHeadKeeps(w);
    HeadIsKnown(w, e.refresh);
    var u := WithHead(w);
    assert RefreshLease(w, e.refresh) == w;
    if u.head.Some? {
      CalmTry(u, u.head.value, e);
    }
  }

  /** A pass under a lease: the port stays closed, nothing is opened or executed, and whatever command was
      taken is refused, unless an exception had left it running before. */
  lemma PassUnderLease(c: Config, w: W, e: Env)
    requires Booked(w) && HeadKnown(w) && Calm(w) && Reads(e, w.leaseUntil)
    ensures var r := Pass(c, w, e);
      && !r.escaped && Calm(r.w) && OnlyRefuses(w, r.w)
      && (r.w.head.Some? ==> r.w.head.value.id < |r.w.futures| && r.w.futures[r.w.head.value.id] == Running)
      && (r.w.head.Some? ==> r.w.head == w.head)
  {
    hide Body, Abandon, Booked, Take;
    CalmBody(c, w, e);
    WithHeadKeeps(w);
    var u := WithHead(w);
    if u.head.Some? {
      var id := u.head.value.id;
      AbandonRefuses(u, id);
      AbandonKeeps(u, id);
      WithHeadBooks(w);
      BookedHead(u);
      if w.head.None? { Unclaimed(w); }
    }
  }

  lemma WithHeadBooks(w: W)
    requires Booked(w)
    ensures Booked(WithHead(w))
  {
    hide Booked, Take;
    if w.head.None? { TakeBooks(w); }
  }

  /** Every pass on the list reads the clock while a lease is in force. */
  ghost predicate UnderLease(c: Config, w: W, acts: seq<Act>)
    requires Booked(w)
    decreases |acts|
  {
    acts == [] ||
    ((acts[0].Passes? ==> Reads(acts[0].e, w.leaseUntil)) &&
     (BookedKnown(w); DoBooks(c, w, acts[0]); UnderLease(c, Do(c, w, acts[0]).w, acts[1..])))
  }

  /** What may be noted while a lease lasts: commands settled, that is refused. */
  ghost predicate OnlySettles(before: seq<Happening>, after: seq<Happening>)
  {
    before <= after && forall h | h in after[|before|..] :: h.Settling?
  }

  lemma SettlesThrough(a: seq<Happening>, b: seq<Happening>, c: seq<Happening>)
    requires OnlySettles(a, b) && OnlySettles(b, c)
    ensures OnlySettles(a, c)
  {
    assert c[|a|..] == b[|a|..] + c[|b|..];
  }

  lemma OtherCalm(c: Config, w: W, a: Act)
    requires HeadKnown(w) && Calm(w) && !a.Passes?
    ensures var r := Do(c, w, a); !r.escaped && Calm(r.w) && r.w.log == w.log
  {}

  /** From a closed port on, for as long as leases last one way or another: the port stays closed, no open
      is attempted, no command is started, and the thread does not die. */
  lemma {:induction false} LeaseKeepsPortClosed(c: Config, w: W, acts: seq<Act>)
    requires Booked(w) && Calm(w) && UnderLease(c, w, acts)
    ensures var r := Run(c, w, acts); !r.escaped && Calm(r.w) && OnlySettles(w.log, r.w.log)
    decreases |acts|
  {
    hide Booked, Calm, Pass;
    if acts != [] {
      BookedKnown(w);
      DoBooks(c, w, acts[0]);
      var r := Do(c, w, acts[0]);
      if acts[0].Passes? {
        PassUnderLease(c, w, acts[0].e);
        hide OnlySettles;
        RefusesSettles(w, r.w);
      } else {
        OtherCalm(c, w, acts[0]);
      }
      LeaseKeepsPortClosed(c, r.w, acts[1..]);
      SettlesThrough(w.log, r.w.log, Run(c, r.w, acts[1..]).w.log);
    }
  }

  lemma RefusesSettles(w: W, v: W)
    requires OnlyRefuses(w, v)
    ensures OnlySettles(w.log, v.log)
  {}

  /** One command over a stretch in which commands are refused at most: no result, no error of its own. */
  predicate RefusedOrNot(before: Future, after: Future)
  {
    || after == before
    || (before == Pending && after in {Cancelled, Notified, Settled(Unavailable)})
    || (before == Cancelled && after == Notified)
  }

  /** Nothing but refusals and cancellations has happened to commands, old or new, and whatever has left the
      queue is finished. */
  ghost predicate Refused(w: W, v: W)
  {
    && |w.futures| <= |v.futures|
    && (forall id: nat | id < |w.futures| :: RefusedOrNot(w.futures[id], v.futures[id]))
    && (forall id: nat | |w.futures| <= id < |v.futures| :: RefusedOrNot(Pending, v.futures[id]))
    && (v.head.Some? ==> v.head == w.head)
  }

  lemma RefusedNext(w: W, v: W, u: W)
    requires Refused(w, v) && Refused(v, u)
    ensures Refused(w, u)
  {
    forall id: nat | id < |w.futures| ensures RefusedOrNot(w.futures[id], u.futures[id]) {
      assert RefusedOrNot(w.futures[id], v.futures[id]) && RefusedOrNot(v.futures[id], u.futures[id]);
    }
    forall id: nat | |w.futures| <= id < |u.futures| ensures RefusedOrNot(Pending, u.futures[id]) {
      if id < |v.futures| { assert RefusedOrNot(Pending, v.futures[id]) && RefusedOrNot(v.futures[id], u.futures[id]); }
    }
  }

  lemma OtherRefused(c: Config, w: W, a: Act)
    requires HeadKnown(w) && !a.Passes?
    ensures Refused(w, Do(c, w, a).w)
  {}

  lemma OnlyRefusesRefused(w: W, v: W)
    requires OnlyRefuses(w, v) && (v.head.Some? ==> v.head == w.head)
    ensures Refused(w, v)
  {
    forall id: nat | id < |w.futures| ensures RefusedOrNot(w.futures[id], v.futures[id]) {
      if v.futures[id] != w.futures[id] { assert 0 <= id < |w.futures|; }
    }
  }

  lemma {:induction false} LeaseRefuses(c: Config, w: W, acts: seq<Act>)
    requires Booked(w) && Calm(w) && UnderLease(c, w, acts)
    ensures Refused(w, Run(c, w, acts).w)
    decreases |acts|
  {
    hide Booked, Calm, Pass, Refused, OnlyRefuses;
    if acts == [] {
      RefusedSame(w);
    } else {
      BookedKnown(w);
      DoBooks(c, w, acts[0]);
      var r := Do(c, w, acts[0]);
      if acts[0].Passes? {
        PassUnderLease(c, w, acts[0].e);
        OnlyRefusesRefused(w, r.w);
      } else {
        OtherCalm(c, w, acts[0]);
        OtherRefused(c, w, acts[0]);
      }
      LeaseRefuses(c, r.w, acts[1..]);
      RefusedNext(w, r.w, Run(c, r.w, acts[1..]).w);
    }
  }

  lemma RefusedSame(w: W)
    ensures Refused(w, w)
  {}

  /** The pass comes to its housekeeping step: there is no command, or the one there is has to wait. */
  predicate Reaches(w: W, e: Env)
    requires HeadKnown(w)
  {
    HeadIsKnown(w, e.refresh);
    var u := WithHead(RefreshLease(w, e.refresh));
    u.head.None? || (var t := TryExecute(u, u.head.value, e); !t.escaped && !t.handled)
  }

  /** A pass that comes to its step under a lease ends with the port closed, whatever escapes from the step, as
      long as the exception handler can close it. */
  lemma PassEntersLease(c: Config, w: W, e: Env)
    requires Owned(w) && HeadKnown(w) && Reaches(w, e) && e.step < w.leaseUntil && !Pass(c, w, e).escaped
    ensures var r := Pass(c, w, e); Calm(r.w) && r.w.log == w.log && r.w.futures == w.futures
  {
    hide TryExecute, FailLink, Take, Owned, Step;
    HeadIsKnown(w, e.refresh);
    WithHeadOwned(w, e.refresh);
    var v := RefreshLease(w, e.refresh);
    var u := WithHead(v);
    WithHeadKeeps(v);
    var x := if u.head.None? then u else TryExecute(u, u.head.value, e).w;
    if u.head.Some? {
      TryHolding(u, u.head.value, e);
      TryWaits(u, u.head.value, e);
      RefreshOwned(u, e.again);
      WantingOwned(RefreshLease(u, e.again));
    }
    LeaseClosesPort(c, x, e);
    StepKeepsHead(c, x, e);
    var r := Step(c, x, e);
    FailLinkLetsGo(r.w, e.handlerReleaseEscapes, e.handlerArm);
    FailLinkBooks(r.w, e.handlerReleaseEscapes, e.handlerArm);
  }

  lemma TryWaits(u: W, c: Command, e: Env)
    requires c.id < |u.futures|
    ensures var t := TryExecute(u, c, e);
      !t.escaped && !t.handled ==> t.w == RefreshLease(u, e.again).(wantLink := true)
  {
    hide ExecuteClaimed, Abandon;
  }

  /** Lease safety. From the first step taken under a lease, for as long as that lease or a later one lasts: the
      port stays closed, no open is attempted, no command is started, and every command that leaves the queue is
      refused, settled with an error unless it was cancelled; and the thread lives. */
  lemma LeaseSafety(c: Config, w: W, e: Env, acts: seq<Act>)
    requires Booked(w) && Owned(w) && HeadKnown(w) && Reaches(w, e) && e.step < w.leaseUntil && !Pass(c, w, e).escaped
    requires Booked(Pass(c, w, e).w) && UnderLease(c, Pass(c, w, e).w, acts)
    ensures var v := Pass(c, w, e).w; var r := Run(c, v, acts);
      && Calm(v) && v.log == w.log && v.futures == w.futures
      && !r.escaped && Calm(r.w) && OnlySettles(v.log, r.w.log) && Refused(v, r.w)
      && forall k | 0 <= k < |v.queue| && !Waiting(r.w, v.queue[k].id) ::
           v.queue[k].id < |r.w.futures| && r.w.futures[v.queue[k].id] in {Notified, Settled(Unavailable)}
  {
    hide Owned, Pass, Run, UnderLease, Reaches, Calm, Recorded;
    PassEntersLease(c, w, e);
    var v := Pass(c, w, e).w;
    LeaseKeepsPortClosed(c, v, acts);
    LeaseRefuses(c, v, acts);
    var r := Run(c, v, acts);
    RunBooks(c, v, acts);
    LeftQueueFinished(v, r.w);
  }

  lemma LeftQueueFinished(v: W, u: W)
    requires Booked(v) && Booked(u) && Refused(v, u)
    ensures forall k | 0 <= k < |v.queue| && !Waiting(u, v.queue[k].id) ::
              v.queue[k].id < |u.futures| && u.futures[v.queue[k].id] in {Notified, Settled(Unavailable)}
  {
    hide Recorded, Waiting;
    forall k | 0 <= k < |v.queue| && !Waiting(u, v.queue[k].id)
      ensures v.queue[k].id < |u.futures| && u.futures[v.queue[k].id] in {Notified, Settled(Unavailable)}
    {
      var id := v.queue[k].id;
      assert RefusedOrNot(v.futures[id], u.futures[id]);
      InOnePlace(u, id);
    }
  }

  // ----- an exception nobody caught -----

  /** The head's future was claimed and never settled. */
  ghost predicate Stuck(w: W)
  {
    && w.head.Some? && w.head.value.id < |w.futures| && w.futures[w.head.value.id] == Running
    && w.state == Backoff && !w.link
  }

  lemma StuckBody(c: Config, w: W, e: Env)
    requires HeadKnown(w) && Stuck(w)
    ensures Body(c, w, e) == R(w, true)
  {
    hide Step, ExecuteClaimed;
  }

  lemma StuckPass(c: Config, w: W, e: Env)
    requires HeadKnown(w) && Stuck(w)
    ensures var r := Pass(c, w, e); !r.escaped && Stuck(r.w) && Untouched(w, r.w)
  {
    hide Body;
    StuckBody(c, w, e);
  }

  lemma StuckOther(c: Config, w: W, a: Act)
    requires HeadKnown(w) && Stuck(w) && !a.Passes?
    ensures var r := Do(c, w, a);
      && !r.escaped && Stuck(r.w) && r.w.log == w.log && w.queue <= r.w.queue && |w.futures| <= |r.w.futures|
      && forall id | 0 <= id < |w.futures| :: r.w.futures[id] == w.futures[id] || r.w.futures[id] == Cancelled
  {}

  /** Once stuck, the worker stays so: every pass ends in its exception handler, the port stays closed, and
      no command - queued then or submitted later - is ever started, refused or settled. */
  lemma {:induction false} StuckForEver(c: Config, w: W, acts: seq<Act>)
    requires Booked(w) && Stuck(w)
    ensures var r := Run(c, w, acts);
      && !r.escaped && Stuck(r.w) && r.w.log == w.log && w.queue <= r.w.queue && |w.futures| <= |r.w.futures|
      && forall id | 0 <= id < |w.futures| :: r.w.futures[id] == w.futures[id] || r.w.futures[id] == Cancelled
    decreases |acts|
  {
    hide Booked, Stuck, Pass, Submit, Cancel;
    if acts != [] {
      BookedKnown(w);
      DoBooks(c, w, acts[0]);
      if acts[0].Passes? { StuckPass(c, w, acts[0].e); } else { StuckOther(c, w, acts[0]); }
      StuckForEver(c, Do(c, w, acts[0]).w, acts[1..]);
    }
  }

  lemma TryLeavesRunning(u: W, e: Env)
    requires u.head.Some? && u.head.value.id < |u.futures| && u.futures[u.head.value.id] in {Pending, Cancelled}
    ensures var id := u.head.value.id; var t := TryExecute(u, u.head.value, e);
      && t.w.head == u.head && |t.w.futures| == |u.futures|
      && (t.escaped <==> u.state == Connected && u.futures[id] == Pending && CommandThrows(u, e))
      && (t.escaped ==> t.w.futures[id] == Running)
      && (!t.escaped && !t.handled ==> t.w.futures == u.futures)
  {
    hide ExecuteClaimed, Abandon, CommandThrows;
    var v := RefreshLease(u, e.again);
    ClaimedOutcome(v, u.head.value.id, e);
    AbandonTells(v, u.head.value.id);
    SameThrows(u, v, e);
  }

  lemma SameThrows(w: W, u: W, e: Env)
    requires w.link == u.link && w.address == u.address
    ensures CommandThrows(w, e) == CommandThrows(u, e)
  {}

  lemma StepKeepsHead(c: Config, w: W, e: Env)
    ensures var v := Step(c, w, e).w; v.head == w.head && v.futures == w.futures
  {
    hide Step, Times;
    StepBooks(c, w, e);
  }

  lemma WithHeadLink(w: W)
    ensures WithHead(w).link == w.link && WithHead(w).address == w.address && WithHead(w).state == w.state
  {
    hide NextUp;
  }

  /** A pass that starts without a stuck head leaves one exactly when it executes a command - connected,
      with a future nobody has cancelled - and something but an AISG error comes out of it. */
  lemma StuckExactlyByEscape(c: Config, w: W, e: Env)
    requires Booked(w) && HeadKnown(w) && Owned(w) && !Pass(c, w, e).escaped
    requires w.head.Some? ==> w.futures[w.head.value.id] != Running
    ensures var u := WithHead(w);
      Stuck(Pass(c, w, e).w) <==>
        w.state == Connected && u.head.Some? && u.head.value.id < |u.futures|
        && u.futures[u.head.value.id] == Pending && CommandThrows(w, e)
  {
    hide Booked, Body, FailLink, Take, CommandThrows;
    StuckBodyExactly(c, w, e);
    var r := Body(c, w, e);
    FailLinkLetsGo(r.w, e.handlerReleaseEscapes, e.handlerArm);
    FailLinkBooks(r.w, e.handlerReleaseEscapes, e.handlerArm);
  }

  /** As the body of the loop sees it: only then is a running future left at the head, and the body throws. */
  lemma StuckBodyExactly(c: Config, w: W, e: Env)
    requires Booked(w) && HeadKnown(w) && Owned(w)
    requires w.head.Some? ==> w.futures[w.head.value.id] != Running
    ensures var u := WithHead(w); var r := Body(c, w, e); var v := r.w;
      var throws := w.state == Connected && u.head.Some? && u.head.value.id < |u.futures|
                    && u.futures[u.head.value.id] == Pending && CommandThrows(w, e);
      && (throws ==> r.escaped)
      && (throws <==> v.head.Some? && v.head.value.id < |v.futures| && v.futures[v.head.value.id] == Running)
  {
    hide Booked, Step, TryExecute, Take, CommandThrows;
    var x := RefreshLease(w, e.refresh);
    IdleBooks(w, x);
    HeadIsKnown(w, e.refresh);
    WithHeadKeeps(x);
    WithHeadLink(x);
    WithHeadBooks(x);
    RefreshedHead(w, e.refresh);
    var u := WithHead(x);
    if u.head.None? {
      StepKeepsHead(c, u, e);
    } else {
      Unclaimed(x);
      TryLeavesRunning(u, e);
      SameThrows(u, w, e);
      StepKeepsHead(c, TryExecute(u, u.head.value, e).w, e);
    }
  }

  lemma Unclaimed(w: W)
    requires Booked(w) && WithHead(w).head.Some?
    requires w.head.Some? ==> w.futures[w.head.value.id] != Running
    ensures var u := WithHead(w); u.head.value.id < |u.futures| && u.futures[u.head.value.id] in {Pending, Cancelled}
  {
    hide NextUp, Recorded;
  }

  /** Refreshing the lease has no bearing on which command is next. */
  lemma RefreshedHead(w: W, now: int)
    ensures WithHead(RefreshLease(w, now)).head == WithHead(w).head
    ensures WithHead(RefreshLease(w, now)).futures == WithHead(w).futures
    ensures w.state == Connected <==> RefreshLease(w, now).state == Connected
    ensures RefreshLease(w, now).link == w.link && RefreshLease(w, now).address == w.address
  {
    hide NextUp;
  }

  // ----- the end -----

  lemma RefuseNextBooks(w: W)
    requires Booked(w) && HeadKnown(w) && w.queue != []
    ensures var v := RefuseNext(w); Booked(v) && v.head == w.head && |v.futures| == |w.futures|
    ensures w.head.Some? ==> RefuseNext(w).futures[w.head.value.id] == w.futures[w.head.value.id]
  {
    hide NextUp, Abandon, Recorded, Tells;
    var k := NextUp(w.queue);
    var id := w.queue[k].id;
    var u := w.(queue := w.queue[..k] + w.queue[k + 1..]);
    SameRecord(w, u);
    AbandonTells(u, id);
    var v := RefuseNext(w);
    RecordMore(u, v, id, v.log[|u.log|..]);
    forall i: nat | i < |v.futures| ensures Waiting(v, i) || Held(v, i) || Finished(v, i) {
      assert Waiting(w, i) || Held(w, i) || Finished(w, i);
      if Waiting(w, i) {
        var j :| 0 <= j < |w.queue| && w.queue[j].id == i;
        if j < k { assert v.queue[j].id == i; } else if j > k { assert v.queue[j - 1].id == i; }
      }
    }
  }

  lemma {:induction false} RefuseAllBooks(w: W)
    requires Booked(w) && HeadKnown(w)
    ensures var v := RefuseAll(w); Booked(v) && v.queue == [] && v.head == w.head && |v.futures| == |w.futures|
    ensures w.head.Some? ==> RefuseAll(w).futures[w.head.value.id] == w.futures[w.head.value.id]
    decreases |w.queue|
  {
    hide Booked, RefuseNext;
    BookedKnown(w);
    if w.queue != [] {
      RefuseNextKnown(w);
      RefuseNextBooks(w);
      RefuseAllBooks(RefuseNext(w));
    }
  }

  lemma ReleaseBooks(w: W, escapes: bool)
    ensures var v := Release(w, escapes).w; Untouched(w, v)
  {}

  /** When the loop has ended, every command but one held at the head has been finished; that one is as it
      was, so everything submitted is finished exactly when no command was held. */
  lemma TeardownFinishesAllButHead(w: W, e: Env)
    requires Booked(w) && HeadKnown(w)
    ensures var v := Teardown(w, e).w;
      && Booked(v) && v.queue == [] && v.head == w.head && |v.futures| == |w.futures|
      && (forall id: nat | id < |v.futures| :: Finished(v, id) <==> !Held(v, id))
      && (w.head.Some? ==> w.head.value.id < |v.futures| && v.futures[w.head.value.id] == w.futures[w.head.value.id])
      && ((forall id: nat | id < |v.futures| :: Finished(v, id)) <==> w.head.None?)
  {
    hide RefuseAll, Release, Recorded;
    RefuseAllBooks(w);
    var u := RefuseAll(w);
    var v := Teardown(w, e).w;
    ReleaseBooks(u, e.releaseEscapes);
    EndBooks(u, v);
  }

  lemma EndBooks(u: W, v: W)
    requires Booked(u) && u.queue == [] && v.queue == [] && v.head == u.head && v.futures == u.futures && v.log == u.log
    ensures Booked(v)
    ensures forall id: nat | id < |v.futures| :: Finished(v, id) <==> !Held(v, id)
    ensures v.head.Some? ==> v.head.value.id < |v.futures| && Held(v, v.head.value.id)
  {
    hide Recorded, Times;
    IdleBooks(u, v);
    forall id: nat | id < |v.futures| ensures Finished(v, id) <==> !Held(v, id) {
      InOnePlace(v, id);
      assert !Waiting(v, id);
    }
  }

  // ----- order and backoff -----

  lemma {:induction false} NextUpIsSoonest(queue: seq<Command>, k: nat)
    requires k < |queue|
    ensures !Sooner(queue[k], queue[NextUp(queue)])
  {
    if |queue| > 1 {
      var init := queue[..|queue| - 1];
      var j := NextUp(init);
      if k < |queue| - 1 {
        NextUpIsSoonest(init, k);
        assert !Sooner(queue[k], queue[j]);
      }
    }
  }

  /** A step attempts to open the port exactly when no lease is in force, the state is one without a link that
      is not itself the backoff, and something asks for the link. The time the backoff is to last plays no part. */
  lemma OpensExactly(c: Config, w: W, e: Env)
    requires Owned(w)
    ensures Times(Step(c, w, e).w.log, OpenAttempted) == Times(w.log, OpenAttempted) + (if Opens(c, w, e) then 1 else 0)
  {
    hide OpenAndConnect, Housekeeping, FailLink, ShouldOpen, Times;
    var v := if w.state == Leased then w.(state := Closed) else w;
    SameAsking(c, w, v, e.step);
    if Opens(c, w, e) {
      OpenState(v, e);
      OneAttempt(w.log);
    } else {
      HousekeepingState(c, v, e);
      FailLinkState(v, e.releaseEscapes, e.arm);
      NoAttempt(w.log);
      ReleaseBooks(w, e.releaseEscapes);
    }
  }

  predicate Opens(c: Config, w: W, e: Env)
  {
    w.leaseUntil <= e.step && w.state in {Closed, PortBusy, PortLost, NoDevices, Leased} && ShouldOpen(c, w, e.step)
  }

  lemma SameAsking(c: Config, w: W, v: W, now: int)
    requires v == w.(state := v.state)
    ensures ShouldOpen(c, w, now) == ShouldOpen(c, v, now)
  {}

  lemma OneAttempt(log: seq<Happening>)
    ensures Times(log + [OpenAttempted], OpenAttempted) == Times(log, OpenAttempted) + 1
    ensures Times(log + [OpenAttempted] + [LinkUp], OpenAttempted) == Times(log, OpenAttempted) + 1
  {}

  lemma NoAttempt(log: seq<Happening>)
    ensures Times(log + [Drained], OpenAttempted) == Times(log, OpenAttempted)
  {}

  /** So the backoff can be passed by in three ways. A duty-cycled poll that finds the link reset leaves the state
      closed with the backoff still running, and the next step with a command waiting opens the port. */
  lemma DutyCycleSkipsBackoff(c: Config, w: W, e: Env, f: Env)
    requires Owned(w) && w.state == Connected && w.queue == [] && w.leaseUntil <= e.step && w.leaseUntil <= f.step
    requires c.monitor == DutyCycled && e.step - w.lastMonitorAt >= c.monitorPeriod && e.poll == PollReset
    requires !e.releaseEscapes
    requires w.backoff > 0 && f.step <= e.arm
    ensures var v := Step(c, w, e).w; f.step < v.backoffUntil && Opens(c, v.(wantLink := true), f)
  {}

  /** A port found busy, lost or without devices keeps that for its state, and is tried again at once if asked. */
  lemma BusyPortSkipsBackoff(c: Config, w: W, e: Env, f: Env)
    requires Owned(w) && Opens(c, w, e) && w.leaseUntil <= f.step
    requires e.open in {OpenBusy, OpenLost} || (e.open == Opened && !e.staleEscapes && e.discover == NothingFound)
    requires w.backoff > 0 && f.step <= e.arm
    ensures var v := Step(c, w, e).w; f.step < v.backoffUntil && Opens(c, v.(wantLink := true), f)
  {
    hide OpenAndConnect, Housekeeping, Drain, ShouldOpen;
    var v := if w.state == Leased then w.(state := Closed) else w;
    SameAsking(c, w, v, e.step);
    ArmedInPlace(v, e);
    Wanting(c, Step(c, w, e).w, f.step);
  }

  lemma ArmedInPlace(w: W, e: Env)
    requires e.open in {OpenBusy, OpenLost} || (e.open == Opened && !e.staleEscapes && e.discover == NothingFound)
    requires w.backoff > 0
    ensures var v := OpenAndConnect(w, e).w;
      v.state in {PortBusy, PortLost, NoDevices} && v.backoffUntil > e.arm && v.leaseUntil == w.leaseUntil
  {}

  lemma Wanting(c: Config, w: W, now: int)
    ensures ShouldOpen(c, w.(wantLink := true), now)
  {}

  /** A lease taken and dropped ends the backoff. */
  lemma LeaseSkipsBackoff(c: Config, w: W, e: Env, f: Env)
    requires Owned(w) && w.state == Backoff && e.step < w.leaseUntil && f.step < w.backoffUntil
    ensures var v := Lease(Step(c, w, e).w, f.step);
      f.step < v.backoffUntil && Opens(c, v.(wantLink := true), f)
  {}
}
