/** Event fan-out: a numbered stream, a bounded queue per subscriber that loses its oldest entry rather
    than hold up the publisher, and a ring from which a client can catch up. */
module Events {
  import opened Numbers

  const QUEUE_DEPTH := 256

  datatype Event = Event(number: nat, body: string)

  /** A subscriber's queue and how many events it has lost. */
  datatype Queue = Queue(waiting: seq<Event>, dropped: nat)

  const EMPTY := Queue([], 0)

  function Offer(q: Queue, e: Event): Queue
  {
    if |q.waiting| < QUEUE_DEPTH then q.(waiting := q.waiting + [e])
    else Queue(q.waiting[1..] + [e], q.dropped + 1)
  }

  /** The last `n` of a list. */
  function Last<T>(n: nat, all: seq<T>): seq<T>
  {
    if |all| <= n then all else all[|all| - n..]
  }

  /** `replay_since`. */
  function Since(ring: seq<Event>, number: nat): seq<Event>
  {
    if ring == [] then []
    else (if ring[0].number > number then [ring[0]] else []) + Since(ring[1..], number)
  }

  class Subscriber {
    var waiting: seq<Event>
    var dropped: nat

    ghost function State(): Queue
      reads this
    {
      Queue(waiting, dropped)
    }

    constructor ()
      ensures State() == EMPTY
    {
      waiting, dropped := [], 0;
    }

    /** Drop the oldest, never block the publisher. */
    method PutNowait(e: Event)
      modifies this
      ensures State() == Offer(old(State()), e)
    {
      if |waiting| < QUEUE_DEPTH {
        waiting := waiting + [e];
      } else {
        waiting := waiting[1..];
        dropped := dropped + 1;
        waiting := waiting + [e];
      }
    }

    method Get() returns (e: Event)
      requires waiting != []
      modifies this`waiting
      ensures [e] + waiting == old(waiting)
    {
      e := waiting[0];
      waiting := waiting[1..];
    }
  }

  class EventBus {
    const replay: nat
    var subs: set<Subscriber>
    var ring: seq<Event>
    var next: nat
    /** Everything ever published. */
    ghost var published: seq<Event>

    ghost predicate Valid()
      reads this
    {
      && next == |published| + 1
      && (forall i | 0 <= i < |published| :: published[i].number == i + 1)
      && ring == Last(replay, published)
    }

    constructor (replay: nat)
      ensures Valid() && published == [] && subs == {} && this.replay == replay
    {
      this.replay, subs, ring, next, published := replay, {}, [], 1, [];
    }

    method PublishNowait(body: string)
      requires Valid()
      modifies this`ring, this`next, this`published, subs
      ensures Valid() && published == old(published) + [Event(old(next), body)]
      ensures forall sub | sub in subs :: sub.State() == Offer(old(sub.State()), Event(old(next), body))
    {
      var e := Event(next, body);
      next := next + 1;
      published := published + [e];
      ring := Last(replay, ring + [e]);
      LastAppend(replay, old(published), e);
      var all, rest := subs, subs;
      while rest != {}
        modifies all
        invariant rest <= all
        invariant forall sub | sub in rest :: sub.State() == old(sub.State())
        invariant forall sub | sub in all - rest :: sub.State() == Offer(old(sub.State()), e)
        decreases |rest|
      {
        var sub :| sub in rest;
        sub.PutNowait(e);
        rest := rest - {sub};
      }
    }

    /** What a client that has seen everything up to `number` is sent: all that is left of the rest. */
    method ReplaySince(number: nat) returns (events: seq<Event>)
      requires Valid()
      ensures events == published[Max(Min(number, |published|), |published| - replay)..]
    {
      hide Since, Last, Min, Max;
      events := [];
      SinceNone(number);
      assert ring[..0] == [];
      for i := 0 to |ring|
        invariant events == Since(ring[..i], number)
      {
        SinceAppend(ring[..i], ring[i], number);
        assert ring[..i + 1] == ring[..i] + [ring[i]];
        if ring[i].number > number {
          events := events + [ring[i]];
        }
      }
      assert ring[..|ring|] == ring;
      SinceLast(replay, published, number);
    }

    method Subscribe() returns (sub: Subscriber)
      modifies this`subs
      ensures fresh(sub) && sub.State() == EMPTY && subs == old(subs) + {sub}
    {
      sub := new Subscriber();
      subs := subs + {sub};
    }

    method Unsubscribe(sub: Subscriber)
      modifies this`subs
      ensures subs == old(subs) - {sub}
    {
      subs := subs - {sub};
    }
  }

  lemma LastAppend<T>(n: nat, all: seq<T>, e: T)
    ensures Last(n, Last(n, all) + [e]) == Last(n, all + [e])
  {}

  lemma SinceFirst(ring: seq<Event>, number: nat)
    requires ring != []
    ensures Since(ring, number) == (if ring[0].number > number then [ring[0]] else []) + Since(ring[1..], number)
  {}

  lemma {:induction false} SinceAppend(ring: seq<Event>, e: Event, number: nat)
    ensures Since(ring + [e], number) == Since(ring, number) + (if e.number > number then [e] else [])
  {
    hide Since;
    SinceNone(number);
    SinceFirst(ring + [e], number);
    if ring == [] {
      assert ring + [e] == [e] && [e][1..] == [];
    } else {
      assert (ring + [e])[1..] == ring[1..] + [e];
      SinceAppend(ring[1..], e, number);
      SinceFirst(ring, number);
    }
  }

  /** Of events numbered in sequence, those above a number are a final stretch. */
  lemma {:induction false} SinceNumbered(ring: seq<Event>, number: nat, before: nat)
    requires forall i | 0 <= i < |ring| :: ring[i].number == before + i + 1
    ensures Since(ring, number) == ring[Min(Max(number - before, 0), |ring|)..]
  {
    if ring != [] {
      SinceNumbered(ring[1..], number, before + 1);
    }
  }

  lemma SinceNone(number: nat)
    ensures Since([], number) == []
  {}

  lemma SinceLast(replay: nat, published: seq<Event>, number: nat)
    requires forall i | 0 <= i < |published| :: published[i].number == i + 1
    ensures Since(Last(replay, published), number) == published[Max(Min(number, |published|), |published| - replay)..]
  {
    hide Since;
    var ring := Last(replay, published);
    SinceNumbered(ring, number, |published| - |ring|);
    assert ring == published[|published| - |ring|..];
  }

  // ----- one subscriber over any interleaving -----

  datatype Op = Publish(e: Event) | Take

  /** A subscriber's life: the queue, what it has taken, and what has been published since it subscribed. */
  datatype Life = Life(queue: Queue, taken: seq<Event>, published: seq<Event>)

  function Live(l: Life, op: Op): Life
  {
    match op
    case Publish(e) => l.(queue := Offer(l.queue, e), published := l.published + [e])
    case Take =>
      if l.queue.waiting == [] then l
      else l.(queue := l.queue.(waiting := l.queue.waiting[1..]), taken := l.taken + [l.queue.waiting[0]])
  }

  function LiveAll(l: Life, ops: seq<Op>): Life
    decreases |ops|
  {
    if ops == [] then l else LiveAll(Live(l, ops[0]), ops[1..])
  }

  /** `taken` is some of `published`, in order. */
  ghost predicate SomeInOrder(taken: seq<Event>, published: seq<Event>)
  {
    taken == [] ||
    exists k :: 0 <= k < |published| && published[k] == taken[|taken| - 1]
                && SomeInOrder(taken[..|taken| - 1], published[..k])
  }

  ghost predicate Accounted(l: Life)
  {
    var n, w := |l.published|, |l.queue.waiting|;
    && n == |l.taken| + l.queue.dropped + w
    && w <= QUEUE_DEPTH && l.queue.waiting == l.published[n - w..]
    && (l.queue.dropped == 0 ==> l.taken + l.queue.waiting == l.published)
    && SomeInOrder(l.taken, l.published[..n - w])
  }

  lemma {:induction false} InOrderOfMore(taken: seq<Event>, published: seq<Event>, more: seq<Event>)
    requires SomeInOrder(taken, published) && published <= more
    ensures SomeInOrder(taken, more)
  {
    if taken != [] {
      var k :| 0 <= k < |published| && published[k] == taken[|taken| - 1]
               && SomeInOrder(taken[..|taken| - 1], published[..k]);
      assert more[..k] == published[..k] && more[k] == published[k];
    }
  }

  lemma AccountedPublish(l: Life, e: Event)
    requires Accounted(l)
    ensures Accounted(Live(l, Publish(e)))
  {
    hide SomeInOrder;
    var m := Live(l, Publish(e));
    var n, w := |l.published|, |l.queue.waiting|;
    InOrderOfMore(l.taken, l.published[..n - w], m.published[..|m.published| - |m.queue.waiting|]);
  }

  lemma AccountedTake(l: Life)
    requires Accounted(l)
    ensures Accounted(Live(l, Take))
  {
    if l.queue.waiting != [] {
      var m := Live(l, Take);
      var k := |l.published| - |l.queue.waiting|;
      var seen := l.published[..k + 1];
      assert m.taken[..|m.taken| - 1] == l.taken && seen[..k] == l.published[..k] && seen[k] == l.queue.waiting[0];
      assert SomeInOrder(m.taken, seen);
    }
  }

  /** Whatever the interleaving of publications and takes: each event published since subscribing has been
      taken, lost or is waiting; those waiting are the latest ones without a gap; those taken came in order;
      and as long as none was lost, taken and waiting together are all of them. */
  lemma {:induction false} EveryEventAccounted(l: Life, ops: seq<Op>)
    requires Accounted(l)
    ensures Accounted(LiveAll(l, ops))
    decreases |ops|
  {
    hide Accounted, Live;
    if ops != [] {
      if ops[0].Publish? { AccountedPublish(l, ops[0].e); } else { AccountedTake(l); }
      EveryEventAccounted(Live(l, ops[0]), ops[1..]);
    }
  }

  /** An event is lost only by one more than the 256 a queue holds, and then exactly one. */
  lemma LostOnlyWhenFull(l: Life, op: Op)
    requires Accounted(l)
    ensures var m := Live(l, op);
      m.queue.dropped == l.queue.dropped + (if op.Publish? && |l.queue.waiting| == 256 then 1 else 0)
  {
    hide SomeInOrder;
  }

  /** The most that is published and not yet taken, over every beginning of `ops`. */
  function Backlog(untaken: nat, ops: seq<Op>): nat
    decreases |ops|
  {
    if ops == [] then untaken
    else
      Max(untaken, Backlog(if ops[0].Publish? then untaken + 1 else if untaken > 0 then untaken - 1 else 0, ops[1..]))
  }

  /** A subscriber that is never more than 256 events behind loses none, and one that is loses some. */
  lemma LosesExactlyWhenBehind(ops: seq<Op>)
    ensures LiveAll(Life(EMPTY, [], []), ops).queue.dropped == 0 <==> Backlog(0, ops) <= 256
  {
    hide LiveAll, Backlog;
    KeepsUpExactly(Life(EMPTY, [], []), ops);
  }

  lemma {:induction false} KeepsUpExactly(l: Life, ops: seq<Op>)
    requires Accounted(l) && l.queue.dropped == 0
    ensures LiveAll(l, ops).queue.dropped == 0 <==> Backlog(|l.queue.waiting|, ops) <= 256
    decreases |ops|
  {
    hide Accounted, Live;
    AtMostFull(l);
    if ops != [] {
      var m := Live(l, ops[0]);
      LostOnlyWhenFull(l, ops[0]);
      EveryEventAccounted(l, [ops[0]]);
      assert [ops[0]][1..] == [] && LiveAll(l, [ops[0]]) == m;
      if m.queue.dropped == 0 {
        Queued(l, ops[0]);
        KeepsUpExactly(m, ops[1..]);
      } else {
        NeverUndropped(m, ops[1..]);
        BacklogAtLeast(257, ops[1..]);
      }
    }
  }

  lemma AtMostFull(l: Life)
    requires Accounted(l)
    ensures |l.queue.waiting| <= 256
  {
    hide SomeInOrder;
  }

  lemma Queued(l: Life, op: Op)
    requires Accounted(l) && Live(l, op).queue.dropped == l.queue.dropped
    ensures var n := |l.queue.waiting|;
      |Live(l, op).queue.waiting| == if op.Publish? then n + 1 else if n > 0 then n - 1 else 0
  {
    hide SomeInOrder;
  }

  lemma BacklogAtLeast(untaken: nat, ops: seq<Op>)
    ensures Backlog(untaken, ops) >= untaken
  {}

  lemma {:induction false} NeverUndropped(l: Life, ops: seq<Op>)
    ensures LiveAll(l, ops).queue.dropped >= l.queue.dropped
    decreases |ops|
  {
    if ops != [] { NeverUndropped(Live(l, ops[0]), ops[1..]); }
  }

  lemma AccountedFromSubscribing(ops: seq<Op>)
    ensures Accounted(LiveAll(Life(EMPTY, [], []), ops))
  {
    EveryEventAccounted(Life(EMPTY, [], []), ops);
  }

  lemma {:induction false} LiveOn(l: Life, ops: seq<Op>, more: seq<Op>)
    ensures LiveAll(l, ops + more) == LiveAll(LiveAll(l, ops), more)
    decreases |ops|
  {
    hide Live;
    if ops == [] {
      assert ops + more == more;
    } else {
      assert (ops + more)[1..] == ops[1..] + more;
      LiveOn(Live(l, ops[0]), ops[1..], more);
    }
  }

  lemma {:induction false} PublishedOn(l: Life, ops: seq<Op>)
    ensures l.published <= LiveAll(l, ops).published
    decreases |ops|
  {
    hide Offer;
    if ops != [] {
      PublishedOn(Live(l, ops[0]), ops[1..]);
    }
  }

  /** What a client is sent on connecting, by the number it gives; zero asks for nothing. */
  function Replay(ring: seq<Event>, number: nat): seq<Event>
  {
    if number == 0 then [] else Since(ring, number)
  }

  /** A client that has seen `number` of the events `before` subscribes and is sent the replay later, when its
      queue has lived through `first`; `later` is what its queue lives through from there on. If `number` is still
      within the ring when the replay is taken and the queue has lost nothing, what was published between the two
      is at the end of the replay and again at the head of the queue; without that repetition the client has had,
      or has waiting, every event after `number`, in order and once. A client that has seen none is sent no replay. */
  lemma ReplayThenQueueHasNoGap(before: seq<Event>, number: nat, replay: nat, first: seq<Op>, later: seq<Op>)
    requires forall i | 0 <= i < |before| :: before[i].number == i + 1
    requires
      var between := LiveAll(Life(EMPTY, [], []), first).published;
      && number <= |before| && |before| + |between| <= number + replay
      && (forall i | 0 <= i < |between| :: between[i].number == |before| + i + 1)
    ensures
      var between := LiveAll(Life(EMPTY, [], []), first).published;
      var l := LiveAll(Life(EMPTY, [], []), first + later);
      var replayed := Replay(Last(replay, before + between), number);
      var queued := l.taken + l.queue.waiting;
      && (number == 0 ==> replayed == [])
      && (l.queue.dropped == 0 ==> between <= queued == l.published)
      && (number > 0 && l.queue.dropped == 0 ==>
          && replayed == before[number..] + between
          && replayed + queued[|between|..] == before[number..] + l.published)
  {
    hide LiveAll, Accounted, Since, Last, Min, Max;
    LiveOn(Life(EMPTY, [], []), first, later);
    PublishedOn(LiveAll(Life(EMPTY, [], []), first), later);
    AccountedFromSubscribing(first + later);
    var between := LiveAll(Life(EMPTY, [], []), first).published;
    var l := LiveAll(Life(EMPTY, [], []), first + later);
    NothingLost(l);
    ReplayedFrom(before + between, number, replay);
    Joins(before, number, between, l.published);
  }

  lemma Joins<T>(before: seq<T>, number: nat, between: seq<T>, published: seq<T>)
    requires number <= |before| && between <= published
    ensures (before + between)[number..] == before[number..] + between
    ensures (before + between)[number..] + published[|between|..] == before[number..] + published
  {
    assert (before + between)[number..] == before[number..] + between;
    assert published == between + published[|between|..];
  }

  lemma NothingLost(l: Life)
    requires Accounted(l)
    ensures l.queue.dropped == 0 ==> l.taken + l.queue.waiting == l.published
  {
    hide SomeInOrder;
  }

  lemma ReplayedFrom(all: seq<Event>, number: nat, replay: nat)
    requires forall i | 0 <= i < |all| :: all[i].number == i + 1
    requires number <= |all| <= number + replay
    ensures Replay(Last(replay, all), number) == if number == 0 then [] else all[number..]
  {
    hide Since, Last;
    SinceLast(replay, all, number);
  }
}
