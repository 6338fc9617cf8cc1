/** Watching an idle link: the keep-alive poll, which takes reports in sequence, and the drain after a timeout,
    which takes and drops whatever still comes. */
module Watching {
  import opened Bits
  import opened Framing
  import opened Control
  import opened Link
  import opened Lockstep
  import opened Agreement
  import opened JointRuns

  /** V(R), what has been written and taken, and whether the device still holds the link. */
  datatype Watch = Watch(vr: seqno, writes: seq<Sent>, taken: seq<bytes>, live: bool)

  /** A keep-alive read looks at one frame: DM and FRMR end the link, an I-frame counts only in sequence, and its
      acknowledgement invites nothing more. */
  function KeepaliveFrame(addr: byte, w: Watch, f: Frame): Watch
  {
    if f.addr != addr then w
    else if KindOf(f.ctrl) == U && WithoutPf(f.ctrl) in {DM, FRMR} then w.(live := false)
    else if KindOf(f.ctrl) != I || NsOf(f.ctrl) != w.vr then w
    else
      var vr := Next(NsOf(f.ctrl));
      Watch(vr, w.writes + [SentRr(addr, vr, false)], w.taken + [f.payload], w.live)
  }

  /** A drain looks at I-frames only, and at whatever N(S) they carry; it asks for more. */
  function DrainFrame(addr: byte, w: Watch, f: Frame): Watch
  {
    if f.addr != addr || KindOf(f.ctrl) != I then w
    else
      var vr := Next(NsOf(f.ctrl));
      Watch(vr, w.writes + [SentRr(addr, vr, true)], w.taken + [f.payload], w.live)
  }

  function KeepaliveAll(addr: byte, w: Watch, frames: seq<Frame>): Watch
    decreases |frames|
  {
    if frames == [] || !w.live then w else KeepaliveAll(addr, KeepaliveFrame(addr, w, frames[0]), frames[1..])
  }

  function DrainRead(addr: byte, w: Watch, frames: seq<Frame>): Watch
    decreases |frames|
  {
    if frames == [] then w else DrainRead(addr, DrainFrame(addr, w, frames[0]), frames[1..])
  }

  /** A read of the drain's loop and the clock before it. */
  datatype Read = Read(before: int, frames: seq<Frame>)

  /** Until the time is up or the bus is quiet. */
  function DrainAll(addr: byte, w: Watch, batches: seq<Read>, end: int): Watch
    decreases |batches|
  {
    if batches == [] || batches[0].before >= end || batches[0].frames == [] then w
    else DrainAll(addr, DrainRead(addr, w, batches[0].frames), batches[1..], end)
  }

  const DRAIN_TIME := 1500

  /** The keep-alive poll of one read; false if the device has dropped the link. The reports among what was taken
      are for the alarm tracker. */
  method KeepalivePoll(link: AisgLink, addr: byte, p: PeerState, frames: seq<Frame>)
    returns (live: bool, taken: seq<bytes>)
    requires link.Valid() && addr in link.peers && link.peers[addr] == p
    modifies link`wire, p`vr
    ensures
      var vr := old(p.vr);
      var w := KeepaliveAll(addr, Watch(vr, [SentRr(addr, vr, true)], [], true), frames);
      && p.vr == w.vr && link.wire == old(link.wire) + w.writes && taken == w.taken && live == w.live
  {
    hide KindOf, NsOf, WithoutPf;
    ghost var before := link.wire;
    ghost var all := KeepaliveAll(addr, Watch(p.vr, [SentRr(addr, p.vr, true)], [], true), frames);
    ghost var writes := [SentRr(addr, p.vr, true)];
    link.wire := link.wire + [SentRr(addr, p.vr, true)];
    taken, live := [], true;
    var i := 0;
    while i < |frames| && live
      invariant 0 <= i <= |frames| && link.wire == before + writes
      invariant KeepaliveAll(addr, Watch(p.vr, writes, taken, live), frames[i..]) == all
    {
      var f := frames[i];
      assert frames[i..][1..] == frames[i + 1..];
      if f.addr == addr {
        var kind := KindOf(f.ctrl);
        if kind == U && WithoutPf(f.ctrl) in {DM, FRMR} {
          live := false;
        } else if kind == I && NsOf(f.ctrl) == p.vr {
          p.vr := Next(NsOf(f.ctrl));
          link.wire := link.wire + [SentRr(addr, p.vr, false)];
          writes := writes + [SentRr(addr, p.vr, false)];
          taken := taken + [f.payload];
        }
      }
      i := i + 1;
    }
  }

  /** The drain, begun at `start`. What it took is given to nobody, reports included: `dropped` is all of it. */
  method Drain(link: AisgLink, addr: byte, p: PeerState, start: int, batches: seq<Read>) returns (dropped: seq<bytes>)
    requires link.Valid() && addr in link.peers && link.peers[addr] == p
    modifies link`wire, p`vr
    ensures
      var w := DrainAll(addr, Watch(old(p.vr), [], [], true), batches, start + DRAIN_TIME);
      p.vr == w.vr && link.wire == old(link.wire) + w.writes && dropped == w.taken
  {
    hide KindOf, NsOf;
    ghost var w := Watch(p.vr, [], [], true);
    ghost var all := DrainAll(addr, w, batches, start + DRAIN_TIME);
    ghost var before := link.wire;
    var end := start + DRAIN_TIME;
    dropped := [];
    var i := 0;
    while i < |batches| && batches[i].before < end
      invariant 0 <= i <= |batches| && link.wire == before + w.writes && p.vr == w.vr && dropped == w.taken
      invariant DrainAll(addr, w, batches[i..], end) == all
    {
      var frames := batches[i].frames;
      if frames == [] {
        break;
      }
      assert batches[i..][1..] == batches[i + 1..];
      ghost var read := DrainRead(addr, w, frames);
      var k := 0;
      while k < |frames|
        invariant 0 <= k <= |frames| && link.wire == before + w.writes && p.vr == w.vr && dropped == w.taken
        invariant DrainRead(addr, w, frames[k..]) == read
      {
        var f := frames[k];
        assert frames[k..][1..] == frames[k + 1..];
        w := DrainFrame(addr, w, f);
        if f.addr == addr && KindOf(f.ctrl) == I {
          p.vr := Next(NsOf(f.ctrl));
          link.wire := link.wire + [SentRr(addr, p.vr, true)];
          dropped := dropped + [f.payload];
        }
        k := k + 1;
      }
      i := i + 1;
    }
  }

  /** A keep-alive by the octets: DM and FRMR of the station end the link and nothing else does; an I-frame counts when
      its N(S) is V(R), and is acknowledged with an RR that does not poll. */
  lemma KeepaliveOctets(addr: byte, w: Watch, f: Frame)
    ensures
      KeepaliveFrame(addr, w, f) ==
        if f.addr == addr && f.ctrl in {0x0F, 0x1F, 0x87, 0x97} then w.(live := false)
        else if f.addr == addr && f.ctrl % 2 == 0 && f.ctrl / 2 % 8 == w.vr then
          Watch((w.vr + 1) % 8, w.writes + [SentRr(addr, (w.vr + 1) % 8, false)], w.taken + [f.payload], w.live)
        else w
  {
    hide KindOf, NsOf, WithoutPf;
    ControlByte(f.ctrl);
    UnnumberedCodes(f.ctrl);
    NsOctet(f.ctrl);
  }

  lemma NsOctet(c: byte)
    ensures NsOf(c) == c / 2 % 8
  {}

  /** A drain takes an I-frame whatever its N(S), moves V(R) past that, and acknowledges with an RR that polls. */
  lemma DrainOctets(addr: byte, w: Watch, f: Frame)
    ensures
      DrainFrame(addr, w, f) ==
        if f.addr == addr && f.ctrl % 2 == 0 then
          var vr := (f.ctrl / 2 + 1) % 8;
          Watch(vr, w.writes + [SentRr(addr, vr, true)], w.taken + [f.payload], w.live)
        else w
  {
    hide KindOf, NsOf, Next;
    ControlByte(f.ctrl);
    NsOctet(f.ctrl);
    NextOf(f.ctrl / 2);
  }

  /** A device that has dropped the link is noticed in the read in which it says so, and what follows is not looked
      at. */
  lemma {:induction false} KeepaliveNotices(addr: byte, w: Watch, frames: seq<Frame>)
    requires w.live
    ensures KeepaliveAll(addr, w, frames).live <==>
              forall f | f in frames :: f.addr == addr ==> f.ctrl !in {0x0F, 0x1F, 0x87, 0x97}
    decreases |frames|
  {
    hide KeepaliveFrame;
    if frames != [] {
      KeepaliveOctets(addr, w, frames[0]);
      var v := KeepaliveFrame(addr, w, frames[0]);
      assert frames[0] in frames && forall f | f in frames :: f == frames[0] || f in frames[1..];
      if v.live {
        KeepaliveNotices(addr, v, frames[1..]);
        assert forall f | f in frames[1..] :: f in frames;
      }
    }
  }

  /** Every frame of these reads taken in, whatever the time. */
  function AllRead(addr: byte, w: Watch, batches: seq<Read>): Watch
    decreases |batches|
  {
    if batches == [] then w else AllRead(addr, DrainRead(addr, w, batches[0].frames), batches[1..])
  }

  /** A drain reads on exactly while a second and a half has not passed and the reads are not empty. */
  lemma {:induction false} DrainReadsOn(addr: byte, w: Watch, batches: seq<Read>, start: int, n: nat)
    requires n < |batches|
    requires forall i | 0 <= i < n :: batches[i].before < start + 1500 && batches[i].frames != []
    requires batches[n].before >= start + 1500 || batches[n].frames == []
    ensures DrainAll(addr, w, batches, start + DRAIN_TIME) == AllRead(addr, w, batches[..n])
    decreases n
  {
    hide DrainRead;
    if n > 0 {
      assert batches[..n][1..] == batches[1..][..n - 1];
      DrainReadsOn(addr, DrainRead(addr, w, batches[0].frames), batches[1..], start, n - 1);
    }
  }

  /** On every run from a fresh connection, the joined stations' step between exchanges is what one of these does
      with the frame at the head of the line: the same V(R), the same RR, the link still up, and in sequence the
      same payload. */
  lemma IdleStepIsWatching(s: System, steps: seq<Step>, t: System, drain: bool)
    requires Connected(s) && Runs(s, steps, t) && Enabled(t, IdleTakes(drain))
    ensures
      var f := PriSees(t.addr, t.s2p[0]);
      var w0 := Watch(t.mode.vr, [], [], true);
      var w := if drain then DrainFrame(t.addr, w0, f) else KeepaliveFrame(t.addr, w0, f);
      var u := IdleHears(t, drain);
      && u.mode.Idle? && u.mode.vs == t.mode.vs && u.mode.vr == w.vr && Wrote(t, IdleTakes(drain)) == w.writes && w.live
      && u.taken == t.taken + (if w.vr != t.mode.vr then w.taken else [])
  {
    hide Inv, KindOf, NsOf, IControl, SControl, WithoutPf, Next, Runs;
    InvInit(s);
    KeepsRun(s, steps, t);
    NoDisconnect(t);
    if KindOf(PriSees(t.addr, t.s2p[0]).ctrl) == I { NextDiffers(NsOf(PriSees(t.addr, t.s2p[0]).ctrl)); }
    assert t.taken + [] == t.taken;
  }

  /** No reply of the secondary's is DM or FRMR, and all come from its address. */
  lemma NoDisconnect(s: System)
    requires Inv(s) && s.s2p != []
    ensures var f := PriSees(s.addr, s.s2p[0]);
      f.addr == s.addr && !(KindOf(f.ctrl) == U && WithoutPf(f.ctrl) in {DM, FRMR})
  {
    hide Counts, PrimaryCounts, Commands, Owed, ReplyBefore, KindOf, IControl, SControl, WithoutPf;
    assert ReplyOk(s, s.s2p[0]);
    match s.s2p[0]
    case Ua => UFramesAreUnnumbered(UA);
    case Sup(kind, nr) => SControlRoundTrip(kind, nr % 8, true);
    case Info(m, nr, _) => IControlRoundTrip(m % 8, nr % 8);
  }
}
