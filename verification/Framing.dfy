/** HDLC frames on the wire: flag delimiters, byte stuffing (section 4.2 of RFC 1662), the check
    sequence, and the one-shot parser of a whole stream. */
module Framing {
  import opened Bits
  import opened Fcs

  const FLAG: byte := 0x7E
  const ESC: byte := 0x7D
  const ESC_XOR := 0x20

  datatype Frame = Frame(addr: byte, ctrl: byte, payload: bytes)

  // ----- byte stuffing -----

  /** The octet with bit 5 toggled. */
  function Escaped(b: byte): (r: byte)
    ensures r == Xor(b, ESC_XOR)
    ensures r == if b / 32 % 2 == 0 then b + 32 else b - 32
  {
    ToggleBit5(b);
    if b / 32 % 2 == 0 then b + 32 else b - 32
  }

  lemma ToggleBit5(b: byte)
    ensures Xor(b, ESC_XOR) == if b / 32 % 2 == 0 then b + 32 else b - 32
  {
    hide Xor;
    XorEven(b, 0x20, 0x10);
    XorEven(b / 2, 0x10, 8);
    ToggleBit3(b / 4);
  }

  lemma ToggleBit3(b: byte)
    ensures Xor(b, 8) == if b / 8 % 2 == 0 then b + 8 else b - 8
  {
    hide Xor;
    XorEven(b, 8, 4);
    XorEven(b / 2, 4, 2);
    ToggleBit1(b / 4);
  }

  lemma ToggleBit1(b: byte)
    ensures Xor(b, 2) == if b / 2 % 2 == 0 then b + 2 else b - 2
  {
    hide Xor;
    XorEven(b, 2, 1);
    XorOdd(b / 2, 1, 0);
    XorZero(b / 4);
  }

  function StuffByte(b: byte): bytes
  {
    if b == FLAG || b == ESC then [ESC, Escaped(b)] else [b]
  }

  function Stuff(data: bytes): bytes
  {
    if data == [] then [] else StuffByte(data[0]) + Stuff(data[1..])
  }

  /** What `data` unstuffs to when an escape is pending or not. An escape at the very end is dropped. */
  function Unstuff(data: bytes, esc: bool): bytes
  {
    if data == [] then []
    else if esc then [Escaped(data[0])] + Unstuff(data[1..], false)
    else if data[0] == ESC then Unstuff(data[1..], true)
    else [data[0]] + Unstuff(data[1..], false)
  }

  lemma {:induction false} StuffHidesFlags(data: bytes)
    ensures FLAG !in Stuff(data)
  {
    if data != [] { StuffHidesFlags(data[1..]); }
  }

  lemma {:induction false} UnstuffStuff(data: bytes)
    ensures Unstuff(Stuff(data), false) == data
  {
    hide Xor;
    if data != [] {
      var b, rest := data[0], Stuff(data[1..]);
      UnstuffStuff(data[1..]);
      if b == FLAG || b == ESC {
        assert Stuff(data) == [ESC] + ([Escaped(b)] + rest);
        assert Unstuff([ESC] + ([Escaped(b)] + rest), false) == Unstuff([Escaped(b)] + rest, true);
        assert ([Escaped(b)] + rest)[1..] == rest;
        assert Escaped(Escaped(b)) == b;
      } else {
        assert Stuff(data)[1..] == rest;
      }
    }
  }

  lemma StuffNothing()
    ensures Stuff([]) == []
  {}

  lemma StuffNext(data: bytes, i: nat)
    requires i < |data|
    ensures Stuff(data[i..]) == StuffByte(data[i]) + Stuff(data[i + 1..])
  {
    assert data[i..][1..] == data[i + 1..];
  }

  method StuffBytes(data: bytes) returns (out: bytes)
    ensures out == Stuff(data)
  {
    hide Escaped, Stuff;
    StuffNothing();
    out := [];
    for i := 0 to |data|
      invariant Stuff(data) == out + Stuff(data[i..])
    {
      var b := data[i];
      StuffNext(data, i);
      if b == FLAG || b == ESC {
        assert out + [ESC] + [Escaped(b)] == out + [ESC, Escaped(b)];
        out := out + [ESC];
        out := out + [Escaped(b)];
      } else {
        out := out + [b];
      }
    }
    assert data[|data|..] == [];
  }

  lemma UnstuffNext(data: bytes, i: nat, esc: bool)
    requires i < |data|
    ensures Unstuff(data[i..], esc)
         == (if esc then [Escaped(data[i])] else if data[i] == ESC then [] else [data[i]])
            + Unstuff(data[i + 1..], !esc && data[i] == ESC)
  {
    hide Escaped;
    assert data[i..][1..] == data[i + 1..];
  }

  lemma UnstuffNothing(esc: bool)
    ensures Unstuff([], esc) == []
  {}

  method UnstuffBytes(data: bytes) returns (out: bytes)
    ensures out == Unstuff(data, false)
  {
    hide Escaped, Unstuff;
    out := [];
    var esc := false;
    assert data[0..] == data;
    for i := 0 to |data|
      invariant out + Unstuff(data[i..], esc) == Unstuff(data, false)
    {
      var b := data[i];
      UnstuffNext(data, i, esc);
      if esc {
        out := out + [Escaped(b)];
        esc := false;
      } else if b == ESC {
        esc := true;
      } else {
        out := out + [b];
      }
    }
    assert data[|data|..] == [];
    UnstuffNothing(esc);
  }

  // ----- building a frame -----

  function Body(f: Frame): (r: bytes)
    ensures |r| == 4 + |f.payload|
  {
    var data := [f.addr, f.ctrl] + f.payload;
    data + FcsBytes(data)
  }

  function BuildFrame(f: Frame): bytes
  {
    [FLAG] + Stuff(Body(f)) + [FLAG]
  }

  // ----- judging what lies between two flags -----

  datatype Verdict = Short | Good(frame: Frame) | Bad

  function Judge(chunk: bytes): Verdict
  {
    var body := Unstuff(chunk, false);
    var n := |body|;
    if n < 4 then Short
    else if FcsOk(body) then Good(Frame(body[0], body[1], body[2..n - 2]))
    else Bad
  }

  /** What a chunk contributes: nothing, a frame, or an error. */
  function Event(chunk: bytes): seq<Verdict>
  {
    if Judge(chunk).Short? then [] else [Judge(chunk)]
  }

  function Events(chunks: seq<bytes>): seq<Verdict>
  {
    if chunks == [] then [] else Event(chunks[0]) + Events(chunks[1..])
  }

  function FramesOf(events: seq<Verdict>): (r: seq<Frame>)
    ensures |r| + BadCount(events) <= |events|
  {
    if events == [] then []
    else (match events[0] case Good(f) => [f] case _ => []) + FramesOf(events[1..])
  }

  function BadCount(events: seq<Verdict>): nat
  {
    if events == [] then 0 else (if events[0].Bad? then 1 else 0) + BadCount(events[1..])
  }

  /** The events before the first bad check sequence. */
  function BeforeBad(events: seq<Verdict>): seq<Verdict>
  {
    if events == [] || events[0].Bad? then [] else [events[0]] + BeforeBad(events[1..])
  }

  lemma {:induction false} TallyAppend(u: seq<Verdict>, v: seq<Verdict>)
    ensures FramesOf(u + v) == FramesOf(u) + FramesOf(v)
    ensures BadCount(u + v) == BadCount(u) + BadCount(v)
  {
    if u == [] {
      assert u + v == v;
    } else {
      assert (u + v)[1..] == u[1..] + v;
      TallyAppend(u[1..], v);
    }
  }

  lemma NoEvents()
    ensures FramesOf([]) == [] && BadCount([]) == 0
  {}

  lemma EmptyChunk()
    ensures Event([]) == []
  {}

  lemma EmptyIsShort()
    ensures Judge([]).Short?
  {}

  lemma JudgeBody(chunk: bytes, body: bytes)
    requires body == Unstuff(chunk, false)
    ensures var n := |body|;
            Judge(chunk) == if n < 4 then Short
                            else if FcsOk(body) then Good(Frame(body[0], body[1], body[2..n - 2]))
                            else Bad
  {}

  lemma EventOf(chunk: bytes, body: bytes)
    requires body == Unstuff(chunk, false)
    ensures var n := |body|;
            Event(chunk) == if n < 4 then []
                            else if FcsOk(body) then [Good(Frame(body[0], body[1], body[2..n - 2]))]
                            else [Bad]
  {}

  /** The receiver recovers every frame the sender built. */
  lemma JudgeBuilt(f: Frame)
    ensures Event(Stuff(Body(f))) == [Good(f)]
  {
    var data := [f.addr, f.ctrl] + f.payload;
    UnstuffStuff(Body(f));
    FcsAccepted(data);
    assert Body(f)[2..|Body(f)| - 2] == f.payload;
  }

  // ----- by value -----

  /** Two octets are escaped, and only these. */
  lemma EscapedOctets(b: byte)
    ensures Stuff([b]) == if b == 0x7E then [0x7D, 0x5E] else if b == 0x7D then [0x7D, 0x5D] else [b]
  {
    hide Xor;
    assert [b][1..] == [];
    assert Stuff([b]) == StuffByte(b) + [];
  }

  /** The receiver takes any octet behind an escape, with bit 5 toggled, and drops an escape with none behind it. */
  lemma EscapeTaken(b: byte, rest: bytes)
    ensures Unstuff([0x7D, b] + rest, false)
         == [if b / 32 % 2 == 0 then b + 32 else b - 32] + Unstuff(rest, false)
    ensures Unstuff([0x7D], false) == []
  {
    hide Xor;
    var data := [0x7D, b] + rest;
    assert data[1..] == [b] + rest && data[1..][1..] == rest;
    assert [0x7D][1..] == [];
  }

  /** SNRM to the first address, flag to flag. */
  lemma BuiltSnrm()
    ensures BuildFrame(Frame(0x01, 0x93, [])) == [0x7E, 0x01, 0x93, 0x8D, 0xB0, 0x7E]
  {
    hide Stuff, Fcs.Fcs;
    CheckSnrm();
    var body := Body(Frame(0x01, 0x93, []));
    assert [0x01, 0x93] + [] == [0x01, 0x93];
    assert body == [0x01, 0x93, 0x8D, 0xB0];
    PlainOctets(body);
  }

  lemma {:induction false} PlainOctets(data: bytes)
    requires forall b | b in data :: b != 0x7E && b != 0x7D
    ensures Stuff(data) == data
  {
    if data != [] {
      assert data[0] in data && forall b | b in data[1..] :: b in data;
      PlainOctets(data[1..]);
      assert StuffByte(data[0]) == [data[0]];
    }
  }

  /** What lies between two flags is taken for a frame exactly when it unstuffs to that frame's body, and passed
      over exactly when that is too short to be one. */
  lemma JudgeExactly(chunk: bytes, f: Frame)
    ensures Judge(chunk) == Good(f) <==> Unstuff(chunk, false) == Body(f)
    ensures Event(chunk) == [] <==> |Unstuff(chunk, false)| < 4
  {
    hide Unstuff, Fcs.Fcs;
    var body := Unstuff(chunk, false);
    var n := |body|;
    if n >= 4 {
      var data := [body[0], body[1]] + body[2..n - 2];
      assert body[..n - 2] == data && body == data + [body[n - 2], body[n - 1]];
      if body == Body(f) {
        var sent := [f.addr, f.ctrl] + f.payload;
        assert data == sent && body[2..n - 2] == f.payload;
      }
    }
  }

  // ----- the one-shot parser -----

  /** The pieces between flags, the two ends included, empty ones too. */
  function Split(raw: bytes): (r: seq<bytes>)
    ensures |r| >= 1
  {
    if raw == [] then [[]]
    else
      var rest := Split(raw[1..]);
      if raw[0] == FLAG then [[]] + rest else [[raw[0]] + rest[0]] + rest[1..]
  }

  lemma {:induction false} SplitAtFlag(pre: bytes, post: bytes)
    requires FLAG !in pre
    ensures Split(pre + [FLAG] + post) == [pre] + Split(post)
  {
    var raw := pre + [FLAG] + post;
    if pre == [] {
      assert raw[1..] == post;
    } else {
      assert raw[1..] == pre[1..] + [FLAG] + post;
      SplitAtFlag(pre[1..], post);
      assert [pre[0]] + pre[1..] == pre;
    }
  }

  lemma {:induction false} SplitNoFlag(raw: bytes)
    requires FLAG !in raw
    ensures Split(raw) == [raw]
  {
    if raw != [] {
      SplitNoFlag(raw[1..]);
      assert [raw[0]] + raw[1..] == raw;
    }
  }

  /** What a caller that drains the generator sees: the frames yielded, and whether FrameError ended it. */
  datatype Parsed = Parsed(frames: seq<Frame>, failed: bool)

  function ParseChunks(chunks: seq<bytes>): Parsed
  {
    if chunks == [] then Parsed([], false)
    else
      match Judge(chunks[0])
      case Bad => Parsed([], true)
      case Short => ParseChunks(chunks[1..])
      case Good(f) => var p := ParseChunks(chunks[1..]); Parsed([f] + p.frames, p.failed)
  }

  method ParseFrames(raw: bytes) returns (parsed: Parsed)
    ensures parsed == ParseChunks(Split(raw))
  {
    hide Split, Event, Judge;
    var chunks := Split(raw);
    var frames: seq<Frame> := [];
    for i := 0 to |chunks|
      invariant ParseChunks(chunks) ==
                Parsed(frames + ParseChunks(chunks[i..]).frames, ParseChunks(chunks[i..]).failed)
    {
      var chunk := chunks[i];
      assert chunks[i..][1..] == chunks[i + 1..];
      if chunk == [] {
        EmptyIsShort();
        continue;
      }
      var body := UnstuffBytes(chunk);
      JudgeBody(chunk, body);
      if |body| < 4 {
        continue;
      }
      if !FcsOk(body) {
        return Parsed(frames, true);
      }
      frames := frames + [Frame(body[0], body[1], body[2..|body| - 2])];
    }
    return Parsed(frames, false);
  }

  /** The parser yields exactly the good frames that precede the first bad check sequence,
      and fails exactly when there is one. */
  lemma {:induction false} ParseStopsAtBad(chunks: seq<bytes>)
    ensures ParseChunks(chunks) == Parsed(FramesOf(BeforeBad(Events(chunks))), Bad in Events(chunks))
  {
    if chunks != [] {
      ParseStopsAtBad(chunks[1..]);
      var e, rest := Event(chunks[0]), Events(chunks[1..]);
      if e == [] {
        assert Events(chunks) == rest;
      } else {
        assert Events(chunks)[1..] == rest;
      }
    }
  }

  lemma {:induction false} EventsAppend(a: seq<bytes>, b: seq<bytes>)
    ensures Events(a + b) == Events(a) + Events(b)
  {
    if a == [] {
      assert a + b == b;
    } else {
      assert (a + b)[1..] == a[1..] + b;
      EventsAppend(a[1..], b);
    }
  }
}
