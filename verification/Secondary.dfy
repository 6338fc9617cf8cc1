/** The strict secondary station of the test suite, in Normal Response Mode: it never speaks first,
    refuses an I-frame whose N(S) is not the one it expects, and - as window size 1 asks of a real
    device - keeps its own outstanding I-frame until the primary's N(R) acknowledges it. */
module Secondary {
  import opened Bits
  import opened Framing
  import opened Control
  import opened Wrappers

  const BROADCAST: byte := 0xFF

  /** `vs`, `vr`, `connected` and `pending` are the station's own fields; `out` is the I-frame it has sent
      and not yet seen acknowledged. */
  datatype Station = Station(
    addr: byte, vs: seqno, vr: seqno, connected: bool, pending: Option<bytes>, out: Option<bytes>)

  /** What is left open each time the station is spoken to: the answer it will give to a command it
      accepts now, whether it is still working, a report it may send first, and which supervisory frame
      it uses when it has nothing to say. */
  datatype Choice = Choice(response: bytes, busy: bool, report: Option<bytes>, kind: Kind)

  function IFrame(s: Station, ns: seqno, payload: bytes): Frame
  {
    Frame(s.addr, IControl(ns, s.vr), payload)
  }

  function Acknowledged(s: Station, nr: seqno): Station
  {
    if s.out.Some? && nr == s.vs then s.(out := None) else s
  }

  /** `_next`: what the station owes the primary, in priority order. */
  function Reply(s: Station, c: Choice): (Station, Frame)
  {
    if s.out.Some? then (s, IFrame(s, (s.vs + 7) % 8, s.out.value))
    else if c.report.Some? then (s.(vs := Next(s.vs), out := c.report), IFrame(s, s.vs, c.report.value))
    else if s.pending.Some? && !c.busy then
      (s.(vs := Next(s.vs), out := s.pending, pending := None), IFrame(s, s.vs, s.pending.value))
    else (s, Frame(s.addr, SControl(c.kind, s.vr, true), []))
  }

  function Hear(s: Station, f: Frame, c: Choice): (Station, seq<Frame>)
  {
    var kind := KindOf(f.ctrl);
    if f.addr != s.addr && f.addr != BROADCAST then (s, [])
    else if kind == U then
      var u := WithoutPf(f.ctrl);
      if u == SNRM then
        (s.(vs := 0, vr := 0, connected := true, pending := None, out := None), [Frame(s.addr, UA + PF, [])])
      else if u == DISC then (s.(connected := false), [Frame(s.addr, UA + PF, [])])
      else (s, [])
    else
      var t := Acknowledged(s, NrOf(f.ctrl));
      if kind == I then
        if NsOf(f.ctrl) != t.vr then (t, [Frame(t.addr, SControl(c.kind, t.vr, true), [])])
        else
          var (u, reply) := Reply(t.(vr := Next(t.vr), pending := Some(c.response)), c);
          (u, [reply])
      else if HasPf(f.ctrl) then
        var (u, reply) := Reply(t, c);
        (u, [reply])
      else (t, [])
  }

  class FakeSecondary {
    const addr: byte
    var vs: seqno
    var vr: seqno
    var connected: bool
    var pending: Option<bytes>
    var out: Option<bytes>

    ghost function State(): Station
      reads this
    {
      Station(addr, vs, vr, connected, pending, out)
    }

    constructor (addr: byte)
      ensures State() == Station(addr, 0, 0, false, None, None)
    {
      this.addr, vs, vr, connected, pending, out := addr, 0, 0, false, None, None;
    }

    method Answer(c: Choice) returns (reply: Frame)
      modifies this
      ensures (State(), reply) == Reply(old(State()), c)
    {
      if out.Some? {
        return Frame(addr, IControl((vs + 7) % 8, vr), out.value);
      }
      if c.report.Some? {
        reply := Frame(addr, IControl(vs, vr), c.report.value);
        out := c.report;
        vs := Next(vs);
        return;
      }
      if pending.Some? && !c.busy {
        reply := Frame(addr, IControl(vs, vr), pending.value);
        out, pending := pending, None;
        vs := Next(vs);
        return;
      }
      return Frame(addr, SControl(c.kind, vr, true), []);
    }

    /** A frame arrives; the answer, if any, is one frame. */
    method Receive(f: Frame, c: Choice) returns (replies: seq<Frame>)
      modifies this
      ensures (State(), replies) == Hear(old(State()), f, c)
    {
      if f.addr != addr && f.addr != BROADCAST {
        return [];
      }
      var kind := KindOf(f.ctrl);
      if kind == U {
        var u := WithoutPf(f.ctrl);
        if u == SNRM {
          connected := true;
          vs, vr := 0, 0;
          pending, out := None, None;
          return [Frame(addr, UA + PF, [])];
        }
        if u == DISC {
          connected := false;
          return [Frame(addr, UA + PF, [])];
        }
        return [];
      }
      if out.Some? && NrOf(f.ctrl) == vs {
        out := None;
      }
      if kind == I {
        var ns := NsOf(f.ctrl);
        if ns != vr {
          return [Frame(addr, SControl(c.kind, vr, true), [])];
        }
        vr := Next(ns);
        pending := Some(c.response);
        var reply := Answer(c);
        return [reply];
      }
      if !HasPf(f.ctrl) {
        return [];
      }
      var reply := Answer(c);
      return [reply];
    }
  }

  // ----- by the octets -----

  /** SNRM resets the station and DISC disconnects it, both answered with UA; other U-frames do nothing, and a frame
      for another station neither. */
  lemma HearsUnnumbered(s: Station, f: Frame, c: Choice)
    requires f.ctrl % 4 == 3
    ensures
      Hear(s, f, c) ==
        if f.addr != s.addr && f.addr != 0xFF then (s, [])
        else if f.ctrl in {0x83, 0x93} then
          (Station(s.addr, 0, 0, true, None, None), [Frame(s.addr, 0x73, [])])
        else if f.ctrl in {0x43, 0x53} then (s.(connected := false), [Frame(s.addr, 0x73, [])])
        else (s, [])
  {
    hide KindOf, WithoutPf;
    ControlByte(f.ctrl);
    UnnumberedCodes(f.ctrl);
  }

  /** A command is taken in when its N(S) is the one expected, and refused with that number again when it is not. */
  lemma HearsCommand(s: Station, f: Frame, c: Choice)
    requires f.ctrl % 2 == 0 && (f.addr == s.addr || f.addr == 0xFF)
    ensures
      var (t, replies) := Hear(s, f, c);
      var kept := if f.ctrl / 32 == s.vs then None else s.out;
      && |replies| == 1 && replies[0].addr == s.addr
      && if f.ctrl / 2 % 8 == s.vr then
           && t.vr == (s.vr + 1) % 8
           && (kept.None? && c.report.None? && !c.busy ==> replies[0].payload == c.response && t.pending == None)
           && (kept.None? && c.report.Some? ==> replies[0].payload == c.report.value && t.pending == Some(c.response))
           && (kept.Some? ==> replies[0].payload == kept.value && t.pending == Some(c.response))
         else
           t == s.(out := kept) && replies == [Frame(s.addr, SControl(c.kind, s.vr, true), [])]
  {
    hide KindOf, NsOf, NrOf, HasPf, SControl, IControl;
    ControlByte(f.ctrl);
    NumberedOctet(f.ctrl);
  }

  lemma NumberedOctet(c: byte)
    ensures NsOf(c) == c / 2 % 8 && NrOf(c) == c / 32 && (HasPf(c) <==> c / 16 % 2 == 1)
  {}

  /** Only a polled station speaks. */
  lemma HearsSupervisory(s: Station, f: Frame, c: Choice)
    requires f.ctrl % 4 == 1 && (f.addr == s.addr || f.addr == 0xFF)
    ensures
      var (t, replies) := Hear(s, f, c);
      var kept := s.(out := if f.ctrl / 32 == s.vs then None else s.out);
      if f.ctrl / 16 % 2 == 0 then t == kept && replies == []
      else |replies| == 1 && (t, replies[0]) == Reply(kept, c)
  {
    hide KindOf, NsOf, NrOf, HasPf, Reply;
    ControlByte(f.ctrl);
    NumberedOctet(f.ctrl);
  }
}
