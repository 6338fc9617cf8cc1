/** The incremental deframer of a long-lived session, proved against a one-shot scan of the stream. */
module Deframing {
  import opened Bits
  import opened Fcs
  import opened Framing

  /** Where the first flag at or after `from` stands, -1 if there is none. */
  function Find(b: bytes, from: nat): (r: int)
    requires from <= |b|
    ensures r < 0 ==> r == -1 && FLAG !in b[from..]
    ensures r >= 0 ==> from <= r < |b| && b[r] == FLAG && FLAG !in b[from..r]
    decreases |b| - from
  {
    if from == |b| then -1
    else if b[from] == FLAG then from
    else
      assert b[from..] == [b[from]] + b[from + 1..];
      var r := Find(b, from + 1);
      assert r >= 0 ==> b[from..r] == [b[from]] + b[from + 1..r];
      r
  }

  /** What a buffer holds once every closed run in it has been taken out. */
  datatype Scanned = Scanned(rest: bytes, events: seq<Verdict>)

  function Scan(b: bytes): Scanned
    decreases |b|
  {
    var i := Find(b, 0);
    if i < 0 then Scanned(b, [])
    else
      var j := Find(b, i + 1);
      if j < 0 then Scanned(b[i..], [])
      else
        var r := Scan(b[j..]);
        Scanned(r.rest, Event(b[i + 1..j]) + r.events)
  }

  /** The limit on what is kept: noise is cut to one byte, an over-long open run loses its flag. */
  function Cap(rest: bytes, max: nat): bytes
  {
    if |rest| <= max then rest
    else if Find(rest, 0) < 0 then rest[|rest| - 1..]
    else rest[1..]
  }

  class Deframer {
    var buf: bytes
    const max: nat
    var fcsErrors: nat
    var overruns: nat

    constructor (maxFrame: nat := 512)
      ensures buf == [] && max == maxFrame && fcsErrors == 0 && overruns == 0
    {
      buf, max, fcsErrors, overruns := [], maxFrame, 0, 0;
    }

    /** Whether a frame is part-way through arriving: something other than leading flags is buffered. */
    method Partial() returns (partial: bool)
      ensures partial <==> exists k :: 0 <= k < |buf| && buf[k] != FLAG
    {
      var i := 0;
      while i < |buf| && buf[i] == FLAG
        invariant 0 <= i <= |buf|
        invariant forall k | 0 <= k < i :: buf[k] == FLAG
      {
        i := i + 1;
      }
      return i < |buf|;
    }

    /** One closed run: a good frame is handed on, a bad one counted, anything shorter skipped. */
    method Take(chunk: bytes) returns (out: seq<Frame>)
      modifies this`fcsErrors
      ensures out == FramesOf(Event(chunk))
      ensures fcsErrors == old(fcsErrors) + BadCount(Event(chunk))
    {
      if chunk == [] {
        EmptyChunk();
        return [];
      }
      var body := UnstuffBytes(chunk);
      EventOf(chunk, body);
      hide Event, Unstuff, FcsOk;
      if |body| < 4 {
        return [];
      }
      if FcsOk(body) {
        return [Frame(body[0], body[1], body[2..|body| - 2])];
      }
      fcsErrors := fcsErrors + 1;
      return [];
    }

    method Feed(data: bytes) returns (out: seq<Frame>)
      modifies this
      ensures buf == Cap(Scan(old(buf) + data).rest, max)
      ensures out == FramesOf(Scan(old(buf) + data).events)
      ensures fcsErrors == old(fcsErrors) + BadCount(Scan(old(buf) + data).events)
      ensures overruns == old(overruns) + (if |Scan(old(buf) + data).rest| > max then 1 else 0)
    {
      hide Scan, Find, Event, FramesOf, BadCount;
      buf := buf + data;
      ghost var whole := Scan(buf);
      ghost var done: seq<Verdict> := [];
      NoEvents();
      out := [];
      while true
        invariant whole.rest == Scan(buf).rest
        invariant whole.events == done + Scan(buf).events
        invariant out == FramesOf(done)
        invariant fcsErrors == old(fcsErrors) + BadCount(done)
        invariant overruns == old(overruns)
        decreases |buf|
      {
        var i := Find(buf, 0);
        FindBounds(buf, 0);
        if i < 0 {
          ScanNone(buf);
          assert whole.events == done;
          if |buf| > max {
            buf := buf[|buf| - 1..];
            overruns := overruns + 1;
          }
          return;
        }
        var j := Find(buf, i + 1);
        FindBounds(buf, i + 1);
        if j < 0 {
          ScanOpen(buf, i);
          assert whole.events == done;
          buf := buf[i..];
          FindIs(buf, 0, 0);
          if |buf| > max {
            buf := buf[1..];
            overruns := overruns + 1;
          }
          return;
        }
        var chunk := buf[i + 1..j];
        ScanClosed(buf, i, j);
        TallyAppend(done, Event(chunk));
        done := done + Event(chunk);
        buf := buf[j..];
        var frames := Take(chunk);
        out := out + frames;
      }
    }
  }

  // ----- scanning piece by piece -----

  ghost predicate NoFlag(b: bytes, lo: nat, hi: nat)
    requires hi <= |b|
  {
    forall k | lo <= k < hi :: b[k] != FLAG
  }

  lemma FindIs(b: bytes, from: nat, r: nat)
    requires from <= r < |b| && b[r] == FLAG && NoFlag(b, from, r)
    ensures Find(b, from) == r
  {
    var f := Find(b, from);
    FindBounds(b, from);
  }

  lemma FindNone(b: bytes, from: nat)
    requires from <= |b| && NoFlag(b, from, |b|)
    ensures Find(b, from) == -1
  {}

  lemma FindBounds(b: bytes, from: nat)
    requires from <= |b|
    ensures var r := Find(b, from); NoFlag(b, from, if r < 0 then |b| else r)
  {
    var r := Find(b, from);
    var e := if r < 0 then |b| else r;
    assert r < 0 ==> b[from..e] == b[from..];
    forall k | from <= k < e ensures b[k] != FLAG {
      assert b[k] == b[from..e][k - from];
    }
  }

  // The three cases of a scan.

  lemma ScanNone(b: bytes)
    requires NoFlag(b, 0, |b|)
    ensures Scan(b) == Scanned(b, [])
  {
    hide Event;
    FindNone(b, 0);
  }

  lemma ScanOpen(b: bytes, i: nat)
    requires i < |b| && b[i] == FLAG && NoFlag(b, 0, i) && NoFlag(b, i + 1, |b|)
    ensures Scan(b) == Scanned(b[i..], [])
  {
    hide Event, Find;
    FindIs(b, 0, i);
    FindNone(b, i + 1);
  }

  lemma ScanClosed(b: bytes, i: nat, j: nat)
    requires i < j < |b| && b[i] == FLAG == b[j] && NoFlag(b, 0, i) && NoFlag(b, i + 1, j)
    ensures Scan(b) == Scanned(Scan(b[j..]).rest, Event(b[i + 1..j]) + Scan(b[j..]).events)
  {
    hide Event, Find;
    FindIs(b, 0, i);
    FindIs(b, i + 1, j);
  }

  /** What does not fit is cut: of noise the last octet is kept, of an open run all but its flag - so that the rest of
      it is noise up to the next flag. */
  lemma CutToFit(run: bytes, max: nat)
    requires NoFlag(run, 0, |run|)
    ensures Cap(run, max) == if |run| <= max then run else [run[|run| - 1]]
    ensures Cap([0x7E] + run, max) == if |run| + 1 <= max then [0x7E] + run else run
  {
    hide Find;
    FindNone(run, 0);
    FindIs([0x7E] + run, 0, 0);
    assert ([0x7E] + run)[1..] == run;
  }

  /** Junk before the first flag is dropped unseen. */
  lemma ScanDropsJunk(junk: bytes, b: bytes)
    requires NoFlag(junk, 0, |junk|) && b != [] && b[0] == FLAG
    ensures Scan(junk + b) == Scan(b)
  {
    hide Scan, Event, Find;
    var n, c := |junk|, junk + b;
    FindBounds(b, 1);
    var j := Find(b, 1);
    if j < 0 {
      ScanOpen(b, 0);
      ScanOpen(c, n);
      assert c[n..] == b;
    } else {
      ScanClosed(b, 0, j);
      ScanClosed(c, n, n + j);
      assert c[n + 1..n + j] == b[1..j];
      assert c[n + j..] == b[j..];
    }
  }

  /** Scanning may stop anywhere and be taken up again from what was left. */
  lemma {:induction false} ScanSplit(x: bytes, y: bytes)
    ensures Scan(x + y) == Scanned(Scan(Scan(x).rest + y).rest,
                                   Scan(x).events + Scan(Scan(x).rest + y).events)
    decreases |x|
  {
    hide Scan, Event, Find;
    FindBounds(x, 0);
    var c := x + y;
    var i := Find(x, 0);
    if i < 0 {
      ScanNone(x);
    } else {
      FindBounds(x, i + 1);
      var j := Find(x, i + 1);
      if j < 0 {
        ScanOpen(x, i);
        assert c == x[..i] + (x[i..] + y);
        ScanDropsJunk(x[..i], x[i..] + y);
      } else {
        ScanClosed(x, i, j);
        ScanClosed(c, i, j);
        assert c[i + 1..j] == x[i + 1..j];
        assert c[j..] == x[j..] + y;
        ScanSplit(x[j..], y);
      }
    }
  }

  /** What a scan leaves: no flag at all, or one, in front. */
  lemma {:induction false} ScanRest(b: bytes)
    ensures var rest := Scan(b).rest;
            && |rest| <= |b| && rest == b[|b| - |rest|..]
            && (rest != [] ==> NoFlag(rest, 1, |rest|))
            && (NoFlag(b, 0, |b|) ==> rest == b)
            && (!NoFlag(b, 0, |b|) ==> rest != [] && rest[0] == FLAG)
    decreases |b|
  {
    hide Scan, Event, Find;
    FindBounds(b, 0);
    var i := Find(b, 0);
    if i < 0 {
      ScanNone(b);
    } else {
      FindBounds(b, i + 1);
      var j := Find(b, i + 1);
      if j < 0 {
        ScanOpen(b, i);
      } else {
        ScanClosed(b, i, j);
        assert b[j..][0] == FLAG;
        ScanRest(b[j..]);
      }
    }
  }

  // ----- what the buffer can hold between feeds -----

  /** Every buffer a feed leaves behind: a flag only in front, and an open run only within the limit. */
  ghost predicate Reachable(buf: bytes, max: nat)
  {
    && (buf != [] ==> NoFlag(buf, 1, |buf|))
    && (|buf| <= max || NoFlag(buf, 0, |buf|))
  }

  /** Whatever was buffered and whatever arrives, a feed ends in such a buffer, no longer than the
      limit (or one byte) plus what has just arrived. */
  lemma FeedReachable(buf: bytes, data: bytes, max: nat)
    ensures Reachable(Cap(Scan(buf + data).rest, max), max)
    ensures Reachable(buf, max) ==>
              |Cap(Scan(buf + data).rest, max)| <= (if max == 0 then 1 else max) + |data|
  {
    hide Scan, Event, Find;
    var b := buf + data;
    var rest := Scan(b).rest;
    ScanRest(b);
    FindBounds(rest, 0);
    if NoFlag(b, 0, |b|) {
      FindNone(rest, 0);
    } else {
      FindIs(rest, 0, 0);
      if NoFlag(buf, 0, |buf|) {
        FindBounds(b, 0);
        var i := Find(b, 0);
        assert b == b[..i] + b[i..];
        ScanDropsJunk(b[..i], b[i..]);
        ScanRest(b[i..]);
      }
    }
  }

  // ----- a stream cut into chunks -----

  /** What a sequence of feeds has produced, and the buffer it leaves. */
  function FeedAll(buf: bytes, max: nat, chunks: seq<bytes>): Scanned
    decreases |chunks|
  {
    if chunks == [] then Scanned(buf, [])
    else
      var s := Scan(buf + chunks[0]);
      var r := FeedAll(Cap(s.rest, max), max, chunks[1..]);
      Scanned(r.rest, s.events + r.events)
  }

  function Join(chunks: seq<bytes>): bytes
  {
    if chunks == [] then [] else chunks[0] + Join(chunks[1..])
  }

  /** A run: from a flag up to, not including, the next one. */
  ghost predicate ClosedRun(s: bytes, i: nat, j: nat)
  {
    i < j < |s| && s[i] == FLAG == s[j] && NoFlag(s, i + 1, j)
  }

  /** Every closed run long enough to mean anything fits the buffer. */
  ghost predicate RunsFit(s: bytes, max: nat)
  {
    forall i: nat, j: nat | ClosedRun(s, i, j) && !Judge(s[i + 1..j]).Short? :: j - i <= max
  }

  lemma RunsFitSuffix(s: bytes, k: nat, max: nat)
    requires k <= |s| && RunsFit(s, max)
    ensures RunsFit(s[k..], max)
  {
    hide Judge;
    var t := s[k..];
    forall i: nat, j: nat | ClosedRun(t, i, j) && !Judge(t[i + 1..j]).Short?
      ensures j - i <= max
    {
      assert t[i + 1..j] == s[k + i + 1..k + j];
      assert forall m | k + i + 1 <= m < k + j :: s[m] == t[m - k];
      assert ClosedRun(s, k + i, k + j);
    }
  }

  /** Without its opening flag a run goes unnoticed; nothing is lost if it was too long to fit. */
  lemma CapHarmless(rest: bytes, max: nat, y: bytes)
    requires rest != [] ==> NoFlag(rest, 1, |rest|)
    requires RunsFit(rest + y, max)
    ensures Scan(Cap(rest, max) + y).events == Scan(rest + y).events
    ensures RunsFit(Cap(rest, max) + y, max)
    ensures Cap(rest, max) != [] ==> NoFlag(Cap(rest, max), 1, |Cap(rest, max)|)
  {
    hide Scan, Event, Find, Judge;
    if |rest| > max {
      var kept, c := Cap(rest, max), rest + y;
      var n := |rest| - |kept|;
      FindBounds(rest, 0);
      assert kept == rest[n..] && kept + y == c[n..];
      RunsFitSuffix(c, n, max);
      assert NoFlag(kept, 0, |kept|) by { assert forall k | 0 <= k < |kept| :: kept[k] == rest[n + k]; }
      JunkScansLike(kept, y);
      if Find(rest, 0) < 0 {
        JunkScansLike(rest, y);
      } else {
        assert rest[0] == FLAG;
        FindBounds(y, 0);
        var j := Find(y, 0);
        if j < 0 {
          ScanNone(y);
          ScanOpen(c, 0);
        } else {
          ScanClosed(c, 0, |rest| + j);
          assert ClosedRun(c, 0, |rest| + j);
          assert c[|rest| + j..] == y[j..];
          LongRunIsShort(c, |rest| + j, max);
          assert y == y[..j] + y[j..];
          ScanDropsJunk(y[..j], y[j..]);
        }
      }
    }
  }

  lemma LongRunIsShort(c: bytes, j: nat, max: nat)
    requires ClosedRun(c, 0, j) && RunsFit(c, max) && j > max
    ensures Event(c[1..j]) == []
  {
    assert c[0 + 1..j] == c[1..j];
  }

  /** A buffer without a flag scans like an empty one. */
  lemma JunkScansLike(junk: bytes, y: bytes)
    requires NoFlag(junk, 0, |junk|)
    ensures Scan(junk + y).events == Scan(y).events
  {
    hide Scan, Event, Find;
    FindBounds(y, 0);
    var i := Find(y, 0);
    if i < 0 {
      ScanNone(y);
      ScanNone(junk + y);
    } else {
      assert y == y[..i] + y[i..];
      assert junk + y == (junk + y[..i]) + y[i..];
      ScanDropsJunk(y[..i], y[i..]);
      ScanDropsJunk(junk + y[..i], y[i..]);
    }
  }

  lemma {:induction false} FeedAllScans(buf: bytes, max: nat, chunks: seq<bytes>)
    requires buf != [] ==> NoFlag(buf, 1, |buf|)
    requires RunsFit(buf + Join(chunks), max)
    ensures FeedAll(buf, max, chunks).events == Scan(buf + Join(chunks)).events
    decreases |chunks|
  {
    hide Scan, Event, Find, Judge, RunsFit, Cap;
    if chunks == [] {
      assert buf + Join(chunks) == buf;
      FindBounds(buf, 0);
      if Find(buf, 0) < 0 { ScanNone(buf); } else { ScanOpen(buf, 0); }
    } else {
      var x, y := buf + chunks[0], Join(chunks[1..]);
      assert buf + Join(chunks) == x + y;
      ScanSplit(x, y);
      ScanRest(x);
      var rest := Scan(x).rest;
      assert rest + y == (x + y)[|x| - |rest|..];
      RunsFitSuffix(x + y, |x| - |rest|, max);
      CapHarmless(rest, max, y);
      FeedAllScans(Cap(Scan(x).rest, max), max, chunks[1..]);
    }
  }

  /** Frames delivered and errors counted: all that a user of the deframer sees of a stream. */
  function Outcome(events: seq<Verdict>): (seq<Frame>, nat)
  {
    (FramesOf(events), BadCount(events))
  }

  /** These reads give the frames and the error count of a single read of the whole. */
  ghost predicate SeenWhole(chunks: seq<bytes>, max: nat)
  {
    Outcome(FeedAll([], max, chunks).events) == Outcome(FeedAll([], max, [Join(chunks)]).events)
  }

  /** However a stream is cut into reads, the frames and the error count are those of a single read. */
  lemma ChunkInvariance(chunks: seq<bytes>, max: nat)
    requires RunsFit(Join(chunks), max)
    ensures SeenWhole(chunks, max)
  {
    hide Scan, RunsFit, Cap, FramesOf, BadCount;
    var s := Join(chunks);
    assert [] + s == s;
    FeedAllScans([], max, chunks);
    OneFeed(s, max);
  }

  lemma {:induction false} Tallied(events: seq<Verdict>)
    requires Short !in events
    ensures |FramesOf(events)| + BadCount(events) == |events|
  {
    if events != [] { Tallied(events[1..]); }
  }

  lemma EventNotShort(chunk: bytes)
    ensures Short !in Event(chunk)
  {}

  lemma {:induction false} ScanNotShort(b: bytes)
    ensures Short !in Scan(b).events
    decreases |b|
  {
    hide Event;
    var i := Find(b, 0);
    if i >= 0 {
      var j := Find(b, i + 1);
      if j >= 0 {
        EventNotShort(b[i + 1..j]);
        ScanNotShort(b[j..]);
      }
    }
  }

  /** The condition is exact: a meaningful run that does not fit is lost when a read ends just before
      its closing flag. */
  lemma OverlongRunLost(s: bytes, i: nat, j: nat, max: nat)
    requires ClosedRun(s, i, j) && !Judge(s[i + 1..j]).Short? && j - i > max
    ensures Join([s[..j], s[j..]]) == s && !SeenWhole([s[..j], s[j..]], max)
  {
    hide Scan, Event, Judge, FeedAll, FramesOf, BadCount, Cap;
    var x, y := s[..j], s[j..];
    assert x + y == s;
    JoinTwo(x, y);
    EventsAroundRun(s, i, j);
    LastRun(s, i, j);
    LostRun(s[i..j], y, max);
    TwoFeeds(x, y, max);
    OneFeed(s, max);
    ScanNotShort(x);
    ScanNotShort(y);
    ScanNotShort(s);
    Tallied(Scan(x).events + Scan(y).events);
    Tallied(Scan(s).events);
  }

  lemma JoinTwo(x: bytes, y: bytes)
    ensures Join([x, y]) == x + y
  {
    assert [x, y][1..] == [y] && [y][1..] == [];
    assert Join([y]) == y + [];
  }

  /** A meaningful run is one event between those before it and those after it. */
  lemma EventsAroundRun(s: bytes, i: nat, j: nat)
    requires ClosedRun(s, i, j) && !Judge(s[i + 1..j]).Short?
    ensures |Scan(s).events| == |Scan(s[..j]).events| + 1 + |Scan(s[j..]).events|
  {
    hide Scan, Event, Judge;
    var x, y := s[..j], s[j..];
    assert x + y == s;
    ScanSplit(x, y);
    LastRun(s, i, j);
    assert s[i..j] + y == s[i..];
    ScanClosed(s[i..], 0, j - i);
    assert s[i..][1..j - i] == s[i + 1..j] && s[i..][j - i..] == y;
    EventMeant(s[i + 1..j]);
  }

  lemma OneFeed(s: bytes, max: nat)
    ensures FeedAll([], max, [s]).events == Scan(s).events
  {
    hide Scan, Cap;
    assert [] + s == s;
    assert [s][1..] == [];
    assert Scan(s).events + [] == Scan(s).events;
  }

  lemma TwoFeeds(x: bytes, y: bytes, max: nat)
    ensures FeedAll([], max, [x, y]).events == Scan(x).events + Scan(Cap(Scan(x).rest, max) + y).events
  {
    hide Scan, Cap;
    var kept := Cap(Scan(x).rest, max);
    assert [] + x == x && [x, y][1..] == [y] && [y][1..] == [];
    assert FeedAll(kept, max, [y]).events == Scan(kept + y).events + [];
  }

  /** An over-long open run loses its flag, and what follows is scanned as if nothing had come before. */
  lemma LostRun(rest: bytes, y: bytes, max: nat)
    requires rest != [] && rest[0] == FLAG && NoFlag(rest, 1, |rest|) && |rest| > max
    ensures Scan(Cap(rest, max) + y).events == Scan(y).events
  {
    hide Scan;
    FindIs(rest, 0, 0);
    var kept := rest[1..];
    assert forall k | 0 <= k < |kept| :: kept[k] == rest[k + 1];
    JunkScansLike(kept, y);
  }

  lemma EventMeant(chunk: bytes)
    requires !Judge(chunk).Short?
    ensures |Event(chunk)| == 1
  {}

  /** The open run at the end of a prefix is what the scan of the prefix leaves. */
  lemma LastRun(s: bytes, i: nat, j: nat)
    requires ClosedRun(s, i, j)
    ensures Scan(s[..j]).rest == s[i..j]
  {
    hide Scan, Event, Find;
    var x := s[..j];
    var rest := Scan(x).rest;
    ScanRest(x);
    var n := |x| - |rest|;
    assert x[i] == FLAG;
    if n < i {
      assert false;
    }
  }

  /** Chunk invariance holds for exactly those streams whose meaningful runs fit the buffer. */
  lemma ChunkInvarianceExact(s: bytes, max: nat)
    ensures RunsFit(s, max) <==>
            forall chunks | Join(chunks) == s :: SeenWhole(chunks, max)
  {
    hide SeenWhole, Judge, Join;
    if RunsFit(s, max) {
      forall chunks | Join(chunks) == s
        ensures SeenWhole(chunks, max)
      {
        ChunkInvariance(chunks, max);
      }
    } else {
      var i: nat, j: nat :| ClosedRun(s, i, j) && !Judge(s[i + 1..j]).Short? && j - i > max;
      OverlongRunLost(s, i, j, max);
      assert !SeenWhole([s[..j], s[j..]], max);
    }
  }

  // ----- the deframer against the one-shot parser -----

  /** The chunks that have a flag on both sides. */
  function Interior(chunks: seq<bytes>): seq<bytes>
  {
    if |chunks| <= 2 then [] else chunks[1..|chunks| - 1]
  }

  lemma SplitAfter(s: bytes, k: nat, j: nat)
    requires k <= j < |s| && s[j] == FLAG && NoFlag(s, k, j)
    ensures Split(s[k..]) == [s[k..j]] + Split(s[j + 1..])
  {
    hide Split;
    assert s[k..] == s[k..j] + [FLAG] + s[j + 1..];
    SplitAtFlag(s[k..j], s[j + 1..]);
  }

  lemma InteriorStep(pre: bytes, chunk: bytes, t: seq<bytes>)
    requires t != []
    ensures Events(Interior([pre] + ([chunk] + t))) == Event(chunk) + Events(Interior([[]] + t))
  {
    hide Event;
    var inner := t[..|t| - 1];
    assert Interior([pre] + ([chunk] + t)) == [chunk] + inner;
    assert Interior([[]] + t) == inner;
    assert ([chunk] + inner)[1..] == inner;
  }

  /** On any stream the deframer sees exactly the chunks between two flags. */
  lemma {:induction false} ScanIsInterior(s: bytes)
    ensures Scan(s).events == Events(Interior(Split(s)))
    decreases |s|
  {
    hide Scan, Event, Find, Split;
    FindBounds(s, 0);
    var i := Find(s, 0);
    if i < 0 {
      ScanNone(s);
      SplitNoFlag(s);
    } else {
      FindBounds(s, i + 1);
      var j := Find(s, i + 1);
      SplitAfter(s, 0, i);
      assert s[0..] == s;
      if j < 0 {
        ScanOpen(s, i);
        SplitNoFlag(s[i + 1..]);
      } else {
        var chunk, post := s[i + 1..j], s[j + 1..];
        SplitAfter(s, i + 1, j);
        SplitAfter(s, j, j);
        ScanClosed(s, i, j);
        ScanIsInterior(s[j..]);
        assert s[j..j] == [];
        InteriorStep(s[..i], chunk, Split(post));
      }
    }
  }

  lemma {:induction false} SplitEnds(s: bytes)
    requires s != []
    ensures s[0] == FLAG ==> |Split(s)| >= 2 && Split(s)[0] == []
    ensures s[|s| - 1] == FLAG ==> |Split(s)| >= 2 && Split(s)[|Split(s)| - 1] == []
  {
    if |s| > 1 {
      assert s[1..][|s| - 2] == s[|s| - 1];
      SplitEnds(s[1..]);
    } else {
      assert Split([]) == [[]];
    }
  }

  /** On a stream that starts and ends with a flag, a fresh deframer delivers the frames of all good
      chunks and counts the bad ones; the parser delivers those before the first bad one. */
  lemma ParserAgreesUpToBad(s: bytes)
    requires s != [] && s[0] == FLAG == s[|s| - 1]
    ensures Scan(s).events == Events(Split(s))
    ensures ParseChunks(Split(s)) == Parsed(FramesOf(BeforeBad(Scan(s).events)), Bad in Scan(s).events)
  {
    hide Scan, Event, Find, Split, Events, Interior, ParseChunks;
    ScanIsInterior(s);
    SplitEnds(s);
    EmptyEnds(Split(s));
    ParseStopsAtBad(Split(s));
  }

  lemma EmptyEnds(chunks: seq<bytes>)
    requires |chunks| >= 2 && chunks[0] == [] == chunks[|chunks| - 1]
    ensures Events(chunks) == Events(Interior(chunks))
  {
    hide Event, Events;
    var inner := chunks[1..|chunks| - 1];
    assert chunks == [[]] + (inner + [[]]);
    OneEmptyChunk();
    EventsAppend([[]], inner + [[]]);
    EventsAppend(inner, [[]]);
  }

  lemma OneEmptyChunk()
    ensures Events([[]]) == [] == Events([])
  {
    EmptyChunk();
  }

  // ----- round trip and resynchronisation -----

  function Flags(n: nat): bytes
  {
    if n == 0 then [] else [FLAG] + Flags(n - 1)
  }

  /** Frames one after another: `gaps[k]` flags beyond the closing one follow frame `k`, so 0 means the
      next frame shares it, 1 that it brings its own, and more is fill. */
  function Line(frames: seq<Frame>, gaps: seq<nat>): bytes
    requires |frames| == |gaps|
  {
    if frames == [] then []
    else Stuff(Body(frames[0])) + [FLAG] + Flags(gaps[0]) + Line(frames[1..], gaps[1..])
  }

  function Goods(frames: seq<Frame>): seq<Verdict>
  {
    if frames == [] then [] else [Good(frames[0])] + Goods(frames[1..])
  }

  lemma {:induction false} GoodsTally(frames: seq<Frame>)
    ensures Outcome(Goods(frames)) == (frames, 0) && BeforeBad(Goods(frames)) == Goods(frames)
    ensures Bad !in Goods(frames)
  {
    if frames != [] {
      GoodsTally(frames[1..]);
      assert Goods(frames)[1..] == Goods(frames[1..]);
      assert [frames[0]] + frames[1..] == frames;
    }
  }

  /** Fill between frames is swallowed. */
  lemma {:induction false} ScanFill(n: nat, y: bytes)
    ensures Scan([FLAG] + Flags(n) + y) == Scan([FLAG] + y)
  {
    hide Scan, Event, Find;
    if n == 0 {
      assert [FLAG] + Flags(0) + y == [FLAG] + y;
    } else {
      var b := [FLAG] + Flags(n) + y;
      var c := [FLAG] + Flags(n - 1) + y;
      assert b == [FLAG] + c;
      ScanClosed(b, 0, 1);
      assert b[1..] == c && b[1..1] == [];
      EmptyChunk();
      ScanFill(n - 1, y);
    }
  }

  lemma ScanBuilt(f: Frame, y: bytes)
    ensures Scan([FLAG] + Stuff(Body(f)) + [FLAG] + y)
         == Scanned(Scan([FLAG] + y).rest, [Good(f)] + Scan([FLAG] + y).events)
  {
    hide Scan, Event, Find, Stuff, Body;
    var w := Stuff(Body(f));
    var b := [FLAG] + w + [FLAG] + y;
    StuffHidesFlags(Body(f));
    assert NoFlag(b, 1, 1 + |w|) by { assert forall k | 1 <= k < 1 + |w| :: b[k] == w[k - 1]; }
    ScanClosed(b, 0, 1 + |w|);
    assert b[1..1 + |w|] == w && b[1 + |w|..] == [FLAG] + y;
    JudgeBuilt(f);
  }

  /** A list of frames, sharing flags or padded with them, comes back exactly. */
  lemma {:induction false} LineRoundTrip(frames: seq<Frame>, gaps: seq<nat>)
    requires |frames| == |gaps|
    ensures Scan([FLAG] + Line(frames, gaps)) == Scanned([FLAG], Goods(frames))
    decreases |frames|
  {
    hide Scan, Event, Find, Stuff, Body;
    if frames == [] {
      assert [FLAG] + Line(frames, gaps) == [FLAG];
      ScanOpen([FLAG], 0);
    } else {
      var rest := Line(frames[1..], gaps[1..]);
      var y := Flags(gaps[0]) + rest;
      assert [FLAG] + Line(frames, gaps) == [FLAG] + Stuff(Body(frames[0])) + [FLAG] + y;
      ScanBuilt(frames[0], y);
      assert [FLAG] + y == [FLAG] + Flags(gaps[0]) + rest;
      ScanFill(gaps[0], rest);
      LineRoundTrip(frames[1..], gaps[1..]);
    }
  }

  function Ones(n: nat): (r: seq<nat>)
    ensures |r| == n
  {
    if n == 0 then [] else [1] + Ones(n - 1)
  }

  function Sent(frames: seq<Frame>): bytes
  {
    if frames == [] then [] else BuildFrame(frames[0]) + Sent(frames[1..])
  }

  /** Frames as the link writes them, each with both flags, are such a line. */
  lemma {:induction false} SentIsLine(frames: seq<Frame>)
    ensures Sent(frames) + [FLAG] == [FLAG] + Line(frames, Ones(|frames|))
  {
    hide Stuff, Body;
    if frames != [] {
      SentIsLine(frames[1..]);
      var w := Stuff(Body(frames[0]));
      assert Ones(|frames|)[1..] == Ones(|frames| - 1);
      assert Flags(1) == [FLAG];
      var rest := Line(frames[1..], Ones(|frames| - 1));
      assert Line(frames, Ones(|frames|)) == w + [FLAG] + [FLAG] + rest;
      calc {
        Sent(frames) + [FLAG];
        [FLAG] + w + [FLAG] + (Sent(frames[1..]) + [FLAG]);
        [FLAG] + w + [FLAG] + ([FLAG] + rest);
        [FLAG] + Line(frames, Ones(|frames|));
      }
    }
  }

  lemma RunsFitPrepend(chunk: bytes, y: bytes, max: nat)
    requires FLAG !in chunk && (Judge(chunk).Short? || |chunk| < max)
    requires RunsFit([FLAG] + y, max)
    ensures RunsFit([FLAG] + chunk + [FLAG] + y, max)
  {
    hide Judge;
    var s, t, n := [FLAG] + chunk + [FLAG] + y, [FLAG] + y, 1 + |chunk|;
    assert s[n..] == t && s[1..n] == chunk;
    assert NoFlag(s, 1, n) by { assert forall k | 1 <= k < n :: s[k] == chunk[k - 1]; }
    forall i: nat, j: nat | ClosedRun(s, i, j) && !Judge(s[i + 1..j]).Short?
      ensures j - i <= max
    {
      if i < n {
        assert s[n] == FLAG;
        assert i == 0 && j == n;
      } else {
        assert t[i - n + 1..j - n] == s[i + 1..j];
        assert forall m | i + 1 <= m < j :: t[m - n] == s[m];
        assert ClosedRun(t, i - n, j - n);
      }
    }
  }

  lemma {:induction false} LineFits(frames: seq<Frame>, gaps: seq<nat>, max: nat)
    requires |frames| == |gaps|
    requires forall f | f in frames :: |Stuff(Body(f))| < max
    ensures RunsFit([FLAG] + Line(frames, gaps), max)
    decreases |frames|
  {
    hide Judge, Stuff, Body;
    if frames != [] {
      hide RunsFit;
      var f, rest := frames[0], Line(frames[1..], gaps[1..]);
      LineFits(frames[1..], gaps[1..], max);
      FillFits(gaps[0], rest, max);
      StuffHidesFlags(Body(f));
      RunsFitPrepend(Stuff(Body(f)), Flags(gaps[0]) + rest, max);
      assert [FLAG] + Line(frames, gaps) == [FLAG] + Stuff(Body(f)) + [FLAG] + (Flags(gaps[0]) + rest);
    }
  }

  lemma {:induction false} FillFits(n: nat, y: bytes, max: nat)
    requires RunsFit([FLAG] + y, max)
    ensures RunsFit([FLAG] + (Flags(n) + y), max)
  {
    hide RunsFit;
    if n == 0 {
      assert Flags(0) + y == y;
    } else {
      FillFits(n - 1, y, max);
      EmptyIsShort();
      RunsFitPrepend([], Flags(n - 1) + y, max);
      assert [FLAG] + [] + [FLAG] + (Flags(n - 1) + y) == [FLAG] + (Flags(n) + y);
    }
  }

  lemma {:induction false} LineEnds(frames: seq<Frame>, gaps: seq<nat>)
    requires |frames| == |gaps|
    ensures var s := [FLAG] + Line(frames, gaps); s[|s| - 1] == FLAG
  {
    if frames != [] {
      LineEnds(frames[1..], gaps[1..]);
      FlagsAreFlags(gaps[0]);
    }
  }

  lemma {:induction false} FlagsAreFlags(n: nat)
    ensures n > 0 ==> Flags(n) != [] && Flags(n)[|Flags(n)| - 1] == FLAG
    ensures n == 0 ==> Flags(n) == []
  {
    if n > 0 { FlagsAreFlags(n - 1); }
  }

  /** Both receivers recover any sent list of frames: the parser from the whole stream, the deframer
      from any cutting of it into reads, as long as the frames fit its buffer. */
  lemma RoundTrip(frames: seq<Frame>, gaps: seq<nat>, chunks: seq<bytes>, max: nat)
    requires |frames| == |gaps| && Join(chunks) == [FLAG] + Line(frames, gaps)
    requires forall f | f in frames :: |Stuff(Body(f))| < max
    ensures Outcome(FeedAll([], max, chunks).events) == (frames, 0)
    ensures ParseChunks(Split(Join(chunks))) == Parsed(frames, false)
  {
    hide Scan, Event, Find, Stuff, Body, RunsFit;
    var s := Join(chunks);
    LineRoundTrip(frames, gaps);
    GoodsTally(frames);
    LineFits(frames, gaps, max);
    assert [] + s == s;
    FeedAllScans([], max, chunks);
    LineEnds(frames, gaps);
    assert s[0] == FLAG;
    ParserAgreesUpToBad(s);
  }

  /** Whatever is buffered, a frame ends up scanned last; at most one run is closed by its first flag. */
  lemma ScanThenFrame(buf: bytes, f: Frame) returns (before: seq<Verdict>)
    ensures Scan(buf + BuildFrame(f)) == Scanned([FLAG], before + [Good(f)])
    ensures |before| <= |Scan(buf).events| + 1
  {
    hide Scan, Event, Find, Stuff, Body;
    var w := Stuff(Body(f));
    var frame := [FLAG] + w + [FLAG];
    ScanSplit(buf, frame);
    ScanRest(buf);
    var rest := Scan(buf).rest;
    assert frame == [FLAG] + w + [FLAG] + [] && [FLAG] + [] == [FLAG];
    ScanBuilt(f, []);
    ScanOpen([FLAG], 0);
    before := Scan(buf).events;
    if NoFlag(rest, 0, |rest|) {
      ScanDropsJunk(rest, frame);
    } else {
      var b := rest + frame;
      ScanClosed(b, 0, |rest|);
      assert b[|rest|..] == frame;
      before := before + Event(b[1..|rest|]);
      AtMostOneEvent(b[1..|rest|]);
    }
  }

  lemma AtMostOneEvent(chunk: bytes)
    ensures |Event(chunk)| <= 1
  {}

  lemma ReachableQuiet(buf: bytes)
    requires buf != [] ==> NoFlag(buf, 1, |buf|)
    ensures Scan(buf).events == []
  {
    hide Scan, Event, Find;
    if buf != [] && buf[0] == FLAG { ScanOpen(buf, 0); } else { ScanNone(buf); }
  }

  /** One good frame resynchronises the deframer, whatever was in its buffer: what a feed then keeps is one
      flag, or nothing if not even that may be kept. A buffer it can really hold gives up at most one other
      frame or error before it. */
  lemma Resynchronises(buf: bytes, f: Frame, max: nat)
    ensures var r := Scan(buf + BuildFrame(f));
            && Cap(r.rest, max) == (if max >= 1 then [FLAG] else [])
            && FramesOf(r.events) != [] && FramesOf(r.events)[|FramesOf(r.events)| - 1] == f
            && ((buf != [] ==> NoFlag(buf, 1, |buf|)) ==> |FramesOf(r.events)| + BadCount(r.events) <= 2)
  {
    hide Scan, BuildFrame;
    var before := ScanThenFrame(buf, f);
    TallyAppend(before, [Good(f)]);
    assert FramesOf([Good(f)]) == [f];
    assert Find([FLAG], 0) == 0;
    if buf != [] ==> NoFlag(buf, 1, |buf|) { ReachableQuiet(buf); }
  }
}
