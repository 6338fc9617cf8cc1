/** The primary station's link layer: per-peer sequence state, connection management, and the
    stop-and-wait exchange of one layer-7 request (sections 4.8.3-4.8.4 of 3GPP TS 25.462). */
module Link {
  import opened Bits
  import opened Framing
  import opened Control
  import opened Numbers

  // Time is counted in milliseconds.
  const RETX_AFTER := 1000
  const RETX_LIMIT := 3

  datatype Verdict = Accept | Indication | Unexpected
  type Router = bytes -> Verdict

  const INDICATION_CODES: set<byte> := {0x07, 0x85}

  /** `RetapRouter`: the expected procedure code is byte 0 of the request. */
  function RetapRouter(message: bytes): Router
  {
    (payload: bytes) =>
      if payload == [] then Unexpected
      else if payload[0] in INDICATION_CODES then Indication
      else if message == [] || payload[0] == message[0] then Accept
      else Unexpected
  }

  /** What one exchange is asked to do. */
  datatype Call = Call(addr: byte, message: bytes, timeout: int, pollInterval: int, router: Router)

  /** A frame the primary puts on the bus during an exchange. */
  datatype Sent = SentI(addr: byte, ns: seqno, nr: seqno, message: bytes) | SentRr(addr: byte, nr: seqno, poll: bool)

  /** The frame as it goes on the wire. A request always polls; an RR without the poll bit asks for nothing in
      return. */
  function ToFrame(sent: Sent): Frame
  {
    match sent
    case SentI(addr, ns, nr, message) => Frame(addr, IControl(ns, nr), message)
    case SentRr(addr, nr, poll) => Frame(addr, SControl(Rr, nr, poll), [])
  }

  datatype Outcome =
    | Running
    | Returned(payload: bytes)
    | TimedOut(acked: bool, polls: nat)
    | LinkReset(dm: bool, detail: bytes)

  datatype Stats = Stats(polls: nat, dupI: nat, unexpected: nat, foreign: nat, rnr: nat, retx: nat, linkResets: nat)

  /** An exchange under way: the peer's state, the local variables of the loop, and a record of what
      it has written, taken in sequence and handed to `on_indication`. */
  datatype Xch = Xch(
    vs: seqno, vr: seqno, connected: bool,
    sentNs: seqno, sentNr: seqno,
    acked: bool, missing: bool, retxLeft: nat, retxAt: int, deadline: int, polls: nat,
    stats: Stats,
    writes: seq<Sent>, taken: seq<bytes>, indications: seq<bytes>,
    outcome: Outcome)

  /** A received frame and the clock reading taken when it is handled; a pass of the outer loop is the
      frames one read returns and the clock reading after the last of them. */
  datatype Timed = Timed(frame: Frame, at: int)
  datatype Pass = Pass(frames: seq<Timed>, now: int)

  /** The request goes out. */
  function Begin(call: Call, vs: seqno, vr: seqno, connected: bool, stats: Stats, now: int): Xch
  {
    Xch(vs, vr, connected, vs, vr, false, false, RETX_LIMIT, now + RETX_AFTER, now + call.timeout, 0,
        stats, [SentI(call.addr, vs, vr, call.message)], [], [], Running)
  }

  function Write(x: Xch, sent: Sent): Xch
  {
    x.(writes := x.writes + [sent])
  }

  /** The request again, byte for byte: its N(R) is the one it was first sent with. */
  function Resend(call: Call, x: Xch): Xch
    requires x.retxLeft > 0
  {
    Write(x.(retxLeft := x.retxLeft - 1, stats := x.stats.(retx := x.stats.retx + 1)),
          SentI(call.addr, x.sentNs, x.sentNr, call.message))
  }

  /** The peer's N(R) asks for the frame we sent. */
  function NoteMissing(x: Xch, ctrl: byte): Xch
  {
    if NrOf(ctrl) == x.sentNs then x.(missing := true) else x
  }

  /** V(S) advances when N(R) covers the frame sent, and once acknowledged a request stays so. */
  function ApplyAck(x: Xch, ctrl: byte): Xch
  {
    if !x.acked && NrOf(ctrl) == Next(x.sentNs) then x.(acked := true, vs := Next(x.sentNs)) else x
  }

  function OnUnnumbered(x: Xch, ctrl: byte, payload: bytes): Xch
  {
    var u := WithoutPf(ctrl);
    if u == DM || u == FRMR then
      x.(vs := 0, vr := 0, connected := false,
         stats := x.stats.(linkResets := x.stats.linkResets + 1),
         outcome := LinkReset(u == DM, if u == DM then [] else payload))
    else x
  }

  function OnInformation(call: Call, x: Xch, ns: seqno, payload: bytes, at: int): Xch
  {
    if ns != x.vr then
      Write(x.(stats := x.stats.(dupI := x.stats.dupI + 1)), SentRr(call.addr, x.vr, true))
    else
      var y := x.(vr := Next(ns), taken := x.taken + [payload]);
      match call.router(payload)
      case Accept =>
        Write(y, SentRr(call.addr, y.vr, false)).(
          vs := if x.acked then x.vs else Next(x.sentNs), outcome := Returned(payload))
      case Indication =>
        Write(y, SentRr(call.addr, y.vr, true)).(
          indications := x.indications + [payload],
          deadline := Min(x.deadline + 4 * call.pollInterval, at + call.timeout))
      case Unexpected =>
        Write(y, SentRr(call.addr, y.vr, true)).(stats := x.stats.(unexpected := x.stats.unexpected + 1))
  }

  /** RR and RNR only acknowledge; REJ and SREJ bring the request again unless it was acknowledged. */
  function OnSupervisory(call: Call, x: Xch, kind: Kind): Xch
  {
    if kind == Rr then x
    else if kind == Rnr then x.(stats := x.stats.(rnr := x.stats.rnr + 1))
    else if !x.acked && x.retxLeft > 0 then Resend(call, x)
    else x
  }

  /** One received frame, in the order the loop looks at it. */
  function OnFrame(call: Call, x: Xch, f: Timed): Xch
  {
    var Timed(Frame(addr, ctrl, payload), at) := f;
    var kind := KindOf(ctrl);
    if addr != call.addr then x.(stats := x.stats.(foreign := x.stats.foreign + 1))
    else if kind == U then OnUnnumbered(x, ctrl, payload)
    else
      var y := ApplyAck(NoteMissing(x, ctrl), ctrl);
      if kind == I then OnInformation(call, y, NsOf(ctrl), payload, at) else OnSupervisory(call, y, kind)
  }

  /** The frames of one read; the rest are dropped once the exchange has ended. */
  function OnFrames(call: Call, x: Xch, frames: seq<Timed>): Xch
    decreases |frames|
  {
    if frames == [] || !x.outcome.Running? then x
    else OnFrames(call, OnFrame(call, x, frames[0]), frames[1..])
  }

  /** After the read: resend if the peer still asks, give up past the deadline, poll otherwise. */
  function AfterBatch(call: Call, x: Xch, now: int): Xch
  {
    if !x.acked && x.missing && now > x.retxAt && x.retxLeft > 0 then
      Resend(call, x.(retxAt := now + RETX_AFTER, missing := false))
    else if now > x.deadline then
      x.(outcome := TimedOut(x.acked, x.polls))
    else
      Write(x.(polls := x.polls + 1, stats := x.stats.(polls := x.stats.polls + 1)), SentRr(call.addr, x.vr, true))
  }

  function OnPass(call: Call, x: Xch, pass: Pass): Xch
  {
    var y := OnFrames(call, x, pass.frames);
    if y.outcome.Running? then AfterBatch(call, y, pass.now) else y
  }

  function Run(call: Call, x: Xch, passes: seq<Pass>): Xch
    decreases |passes|
  {
    if passes == [] || !x.outcome.Running? then x
    else Run(call, OnPass(call, x, passes[0]), passes[1..])
  }

  lemma RunStep(call: Call, x: Xch, passes: seq<Pass>)
    requires passes != [] && x.outcome.Running?
    ensures Run(call, x, passes) == Run(call, OnPass(call, x, passes[0]), passes[1..])
  {}

  lemma RunStops(call: Call, x: Xch, passes: seq<Pass>)
    requires passes == [] || !x.outcome.Running?
    ensures Run(call, x, passes) == x
  {}

  /** How a one-shot command ends: answered, no usable answer (AisgError), or a bad check sequence (FrameError). */
  datatype CommandResult = Done | NoAnswer | Garbled

  predicate IsUaFrom(f: Frame, addr: byte)
  {
    f.addr == addr && WithoutPf(f.ctrl) == UA
  }

  class PeerState {
    var vs: seqno
    var vr: seqno
    var connected: bool

    constructor ()
      ensures vs == 0 && vr == 0 && !connected
    {
      vs, vr, connected := 0, 0, false;
    }

    method Reset()
      modifies this`vs, this`vr
      ensures vs == 0 && vr == 0
    {
      vs, vr := 0, 0;
    }
  }

  class AisgLink {
    var peers: map<byte, PeerState>
    var stats: Stats
    /** Every frame handed to the serial port. */
    var wire: seq<Sent>

    /** Addresses do not share sequence state. */
    ghost predicate Valid()
      reads this
    {
      forall a, b | a in peers && b in peers && a != b :: peers[a] != peers[b]
    }

    constructor ()
      ensures Valid() && peers == map[] && wire == [] && stats == Stats(0, 0, 0, 0, 0, 0, 0)
    {
      peers, wire, stats := map[], [], Stats(0, 0, 0, 0, 0, 0, 0);
    }

    method Peer(addr: byte) returns (p: PeerState)
      requires Valid()
      modifies this`peers
      ensures Valid() && addr in peers && peers[addr] == p
      ensures old(addr in peers) ==> peers == old(peers)
      ensures !old(addr in peers) ==>
                fresh(p) && peers == old(peers)[addr := p] && p.vs == 0 && p.vr == 0 && !p.connected
    {
      if addr !in peers {
        var created := new PeerState();
        peers := peers[addr := created];
      }
      p := peers[addr];
    }

    /** `connect`: given what the one-shot parser made of the answer to SNRM. Only a UA from this very
        address resets its sequence state; without one nothing changes. */
    method Connect(addr: byte, reply: Parsed) returns (r: CommandResult)
      requires Valid()
      modifies this`peers, if addr in peers then {peers[addr]} else {}
      ensures Valid()
      ensures r == Garbled <==> reply.failed
      ensures r == Done <==> !reply.failed && exists f :: f in reply.frames && IsUaFrom(f, addr)
      ensures r == Done ==>
                && addr in peers && peers[addr].vs == 0 && peers[addr].vr == 0 && peers[addr].connected
                && (old(addr in peers) ==> peers == old(peers))
                && (!old(addr in peers) ==> fresh(peers[addr]) && peers == old(peers)[addr := peers[addr]])
      ensures r != Done ==>
                && peers == old(peers)
                && (addr in peers ==> unchanged(peers[addr]))
    {
      if reply.failed {
        return Garbled;
      }
      for i := 0 to |reply.frames|
        invariant forall k | 0 <= k < i :: !IsUaFrom(reply.frames[k], addr)
        invariant peers == old(peers) && (addr in peers ==> unchanged(peers[addr]))
      {
        var f := reply.frames[i];
        if f.addr == addr && WithoutPf(f.ctrl) == UA {
          assert IsUaFrom(f, addr);
          var p := Peer(addr);
          p.Reset();
          p.connected := true;
          return Done;
        }
      }
      return NoAnswer;
    }

    /** `disconnect`: any answer that parses, even none, ends the link on this side. */
    method Disconnect(addr: byte, reply: Parsed) returns (r: CommandResult)
      requires Valid()
      modifies this`peers, if addr in peers then {peers[addr]} else {}
      ensures Valid()
      ensures r == if reply.failed then Garbled else Done
      ensures r == Done ==>
                && addr in peers && peers[addr].vs == 0 && peers[addr].vr == 0 && !peers[addr].connected
                && (old(addr in peers) ==> peers == old(peers))
                && (!old(addr in peers) ==> fresh(peers[addr]) && peers == old(peers)[addr := peers[addr]])
      ensures r != Done ==> peers == old(peers) && (addr in peers ==> unchanged(peers[addr]))
    {
      if reply.failed {
        return Garbled;
      }
      var p := Peer(addr);
      p.Reset();
      p.connected := false;
      return Done;
    }

    /** `exchange`, over any script of reads and clock readings: the loop runs until the exchange ends
        or the script does (outcome Running). Only this peer's state and the link's own fields change. */
    method Exchange(call: Call, start: int, script: seq<Pass>) returns (outcome: Outcome, indications: seq<bytes>)
      requires Valid()
      modifies this, if call.addr in peers then {peers[call.addr]} else {}
      ensures Valid()
      ensures call.addr in peers && (old(call.addr in peers) ==> peers == old(peers))
      ensures !old(call.addr in peers) ==> fresh(peers[call.addr]) && peers == old(peers)[call.addr := peers[call.addr]]
      ensures
        var vs := if old(call.addr in peers) then old(peers[call.addr].vs) else 0;
        var vr := if old(call.addr in peers) then old(peers[call.addr].vr) else 0;
        var connected := old(call.addr in peers) && old(peers[call.addr].connected);
        var x := Run(call, Begin(call, vs, vr, connected, old(stats), start), script);
        && peers[call.addr].vs == x.vs && peers[call.addr].vr == x.vr && peers[call.addr].connected == x.connected
        && stats == x.stats && wire == old(wire) + x.writes
        && outcome == x.outcome && indications == x.indications
    {
      hide Run, OnPass;
      var p := Peer(call.addr);
      var e := new Attempt(this, p, call, start);
      wire := wire + [e.request];
      ghost var result := Run(call, e.State(), script);
      var n := 0;
      while n < |script| && e.outcome.Running?
        invariant 0 <= n <= |script| && Run(call, e.State(), script[n..]) == result
        invariant fresh(e) && e.link == this && e.peer == p && e.call == call && e.base == old(wire) && e.Valid()
        modifies this`wire, this`stats, p, e
      {
        RunStep(call, e.State(), script[n..]);
        assert script[n..][1..] == script[n + 1..];
        e.TakePass(script[n]);
        n := n + 1;
      }
      RunStops(call, e.State(), script[n..]);
      return e.outcome, e.indications;
    }
  }

  /** The local variables of one `exchange`, and what it does with them pass by pass. */
  class Attempt {
    const link: AisgLink
    const peer: PeerState
    const call: Call
    const request: Sent
    var acked: bool
    var missing: bool
    var retxLeft: nat
    var retxAt: int
    var deadline: int
    var polls: nat
    var indications: seq<bytes>
    var outcome: Outcome
    ghost const base: seq<Sent>
    ghost var writes: seq<Sent>
    ghost var taken: seq<bytes>

    ghost function State(): Xch
      requires request.SentI?
      reads this, link`stats, peer
    {
      Xch(peer.vs, peer.vr, peer.connected, request.ns, request.nr, acked, missing, retxLeft, retxAt, deadline, polls,
          link.stats, writes, taken, indications, outcome)
    }

    ghost predicate Valid()
      reads this`writes, link`wire
    {
      && request.SentI? && request == SentI(call.addr, request.ns, request.nr, call.message)
      && link.wire == base + writes
    }

    constructor (link: AisgLink, peer: PeerState, call: Call, now: int)
      ensures this.link == link && this.peer == peer && this.call == call && base == link.wire
      ensures request == SentI(call.addr, peer.vs, peer.vr, call.message)
      ensures State() == Begin(call, peer.vs, peer.vr, peer.connected, link.stats, now)
    {
      this.link, this.peer, this.call := link, peer, call;
      request := SentI(call.addr, peer.vs, peer.vr, call.message);
      acked, missing, polls := false, false, 0;
      deadline, retxAt, retxLeft := now + call.timeout, now + RETX_AFTER, RETX_LIMIT;
      indications, outcome := [], Running;
      base := link.wire;
      writes, taken := [SentI(call.addr, peer.vs, peer.vr, call.message)], [];
    }

    method Write(sent: Sent)
      requires Valid()
      modifies link`wire, this`writes
      ensures Valid() && writes == old(writes) + [sent]
    {
      link.wire := link.wire + [sent];
      writes := writes + [sent];
    }

    /** One frame of a read. */
    method TakeFrame(f: Timed)
      requires Valid() && outcome.Running?
      modifies this, link`wire, link`stats, peer
      ensures Valid() && State() == OnFrame(call, old(State()), f)
    {
      hide KindOf, NrOf, NsOf, WithoutPf, OnSupervisory, OnInformation, OnUnnumbered;
      var Timed(frame, at) := f;
      var kind := KindOf(frame.ctrl);
      if frame.addr != call.addr {
        link.stats := link.stats.(foreign := link.stats.foreign + 1);
        return;
      }
      if kind != U && NrOf(frame.ctrl) == request.ns {
        missing := true;
      }
      if kind == U {
        TakeUnnumbered(frame.ctrl, frame.payload);
        return;
      }
      if !acked {
        acked := AckedBy(frame.ctrl);
      }
      if kind == I {
        TakeInformation(NsOf(frame.ctrl), frame.payload, at);
      } else {
        TakeSupervisory(kind);
      }
    }

    /** Whether this frame's N(R) covers the request; if so V(S) moves past it. */
    method AckedBy(ctrl: byte) returns (covered: bool)
      requires request.SentI?
      modifies peer`vs
      ensures covered <==> NrOf(ctrl) == Next(request.ns)
      ensures peer.vs == if covered then Next(request.ns) else old(peer.vs)
    {
      covered := NrOf(ctrl) == Next(request.ns);
      if covered {
        peer.vs := Next(request.ns);
      }
    }

    /** DM and FRMR end the link; other unnumbered frames are ignored. */
    method TakeUnnumbered(ctrl: byte, payload: bytes)
      requires Valid()
      modifies this`outcome, link`stats, peer
      ensures Valid() && State() == OnUnnumbered(old(State()), ctrl, payload)
    {
      var u := WithoutPf(ctrl);
      if u == DM || u == FRMR {
        peer.Reset();
        peer.connected := false;
        link.stats := link.stats.(linkResets := link.stats.linkResets + 1);
        outcome := LinkReset(u == DM, if u == DM then [] else payload);
      }
    }

    method TakeSupervisory(kind: Kind)
      requires Valid()
      modifies this`retxLeft, this`writes, link`wire, link`stats
      ensures Valid() && State() == OnSupervisory(call, old(State()), kind)
    {
      if kind == Rr {
        return;
      }
      if kind == Rnr {
        link.stats := link.stats.(rnr := link.stats.rnr + 1);
        return;
      }
      if !acked && retxLeft > 0 {
        retxLeft := retxLeft - 1;
        link.stats := link.stats.(retx := link.stats.retx + 1);
        Write(request);
      }
    }

    /** An I-frame: out of sequence it is re-acknowledged and dropped, in sequence taken and routed. */
    method TakeInformation(ns: seqno, payload: bytes, at: int)
      requires Valid() && outcome.Running?
      modifies this, link`wire, link`stats, peer
      ensures Valid() && State() == OnInformation(call, old(State()), ns, payload, at)
    {
      if ns != peer.vr {
        link.stats := link.stats.(dupI := link.stats.dupI + 1);
        Write(SentRr(call.addr, peer.vr, true));
        return;
      }
      peer.vr := Next(ns);
      taken := taken + [payload];
      var verdict := call.router(payload);
      if verdict == Accept {
        Write(SentRr(call.addr, peer.vr, false));
        if !acked {
          peer.vs := Next(request.ns);
        }
        outcome := Returned(payload);
        return;
      }
      Write(SentRr(call.addr, peer.vr, true));
      if verdict == Indication {
        indications := indications + [payload];
        deadline := Min(deadline + 4 * call.pollInterval, at + call.timeout);
      } else {
        link.stats := link.stats.(unexpected := link.stats.unexpected + 1);
      }
    }

    /** The end of a pass: resend a frame the peer asks for, give up past the deadline, or poll. */
    method AfterRead(now: int)
      requires Valid() && outcome.Running?
      modifies this, link`wire, link`stats
      ensures Valid() && State() == AfterBatch(call, old(State()), now)
    {
      if !acked && missing && now > retxAt && retxLeft > 0 {
        retxLeft := retxLeft - 1;
        retxAt := now + RETX_AFTER;
        missing := false;
        link.stats := link.stats.(retx := link.stats.retx + 1);
        Write(request);
      } else if now > deadline {
        outcome := TimedOut(acked, polls);
      } else {
        polls := polls + 1;
        link.stats := link.stats.(polls := link.stats.polls + 1);
        Write(SentRr(call.addr, peer.vr, true));
      }
    }

    method TakePass(pass: Pass)
      requires Valid() && outcome.Running?
      modifies this, link`wire, link`stats, peer
      ensures Valid() && State() == OnPass(call, old(State()), pass)
    {
      hide OnFrame, AfterBatch;
      ghost var batch := OnFrames(call, State(), pass.frames);
      var m := 0;
      while m < |pass.frames| && outcome.Running?
        invariant 0 <= m <= |pass.frames| && OnFrames(call, State(), pass.frames[m..]) == batch
        invariant Valid()
      {
        assert pass.frames[m..][1..] == pass.frames[m + 1..];
        TakeFrame(pass.frames[m]);
        m := m + 1;
      }
      if outcome.Running? {
        AfterRead(pass.now);
      }
    }
  }
}
