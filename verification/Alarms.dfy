/** The active alarm set and the edges it emits, fed by full snapshots and by single indications. */
module Alarms {
  import opened Bits

  datatype Action = Raised | Cleared
  datatype Edge = Edge(action: Action, name: string)

  // ----- return codes -----

  const RETURN_CODES: map<byte, string> := map[
    0x00 := "OK", 0x02 := "MotorJam", 0x03 := "ActuatorJam", 0x05 := "Busy", 0x06 := "ChecksumError",
    0x0B := "FAIL", 0x0E := "NotCalibrated", 0x0F := "NotConfigured", 0x11 := "HardwareError",
    0x13 := "OutOfRange", 0x19 := "UnknownProcedure", 0x1A := "MinorTMAFault", 0x1B := "MajorTMAFault",
    0x1C := "UnsupportedValue", 0x1D := "ReadOnly", 0x1E := "UnknownParameter",
    0x21 := "WorkingSoftwareMissing", 0x22 := "InvalidFileContent", 0x24 := "FormatError",
    0x25 := "UnsupportedProcedure", 0x26 := "InvalidProcedureSequence", 0x27 := "ActuatorInterference"]

  function HexDigit(n: nat): char
    requires n < 16
  {
    "0123456789ABCDEF"[n]
  }

  /** `rc_name`: a code without a name is shown in hexadecimal. */
  function RcName(code: byte): string
  {
    if code in RETURN_CODES then RETURN_CODES[code] else ['0', 'x', HexDigit(code / 16), HexDigit(code % 16)]
  }

  /** What stands for an alarm: any name but none at all and OK. */
  predicate IsAlarm(name: string)
  {
    name != "" && name != "OK"
  }

  /** Only the code 0 is no alarm. */
  lemma OnlyZeroIsOk(code: byte)
    ensures IsAlarm(RcName(code)) <==> code != 0
  {
    if code !in RETURN_CODES {
      assert |RcName(code)| == 4;
    }
  }

  // ----- names in order -----

  predicate Less(a: string, b: string)
  {
    b != "" && (a == "" || a[0] < b[0] || (a[0] == b[0] && Less(a[1..], b[1..])))
  }

  lemma {:induction false} LessIrreflexive(a: string)
    ensures !Less(a, a)
  {
    if a != "" { LessIrreflexive(a[1..]); }
  }

  lemma {:induction false} LessTransitive(a: string, b: string, c: string)
    requires Less(a, b) && Less(b, c)
    ensures Less(a, c)
  {
    if a != "" && a[0] == b[0] == c[0] { LessTransitive(a[1..], b[1..], c[1..]); }
  }

  lemma {:induction false} LessTotal(a: string, b: string)
    ensures a == b || Less(a, b) || Less(b, a)
  {
    if a != "" && b != "" && a[0] == b[0] {
      LessTotal(a[1..], b[1..]);
      assert a == [a[0]] + a[1..] && b == [b[0]] + b[1..];
    }
  }

  ghost predicate Ascending(names: seq<string>)
  {
    forall i, k | 0 <= i < k < |names| :: Less(names[i], names[k])
  }

  function Names(names: seq<string>): set<string>
  {
    set n | n in names
  }

  /** `names` lists the set in ascending order, each name once. */
  ghost predicate Sorts(names: seq<string>, s: set<string>)
  {
    Ascending(names) && Names(names) == s
  }

  /** Where `name` goes. */
  method Place(names: seq<string>, name: string) returns (longer: seq<string>)
    requires Ascending(names) && name !in names
    ensures Ascending(longer) && Names(longer) == Names(names) + {name}
  {
    var k := 0;
    while k < |names| && Less(names[k], name)
      invariant 0 <= k <= |names|
      invariant forall i | 0 <= i < k :: Less(names[i], name)
    {
      k := k + 1;
    }
    longer := names[..k] + [name] + names[k..];
    forall i | k <= i < |names| ensures Less(name, names[i]) {
      LessTotal(name, names[k]);
      if i > k { LessTransitive(name, names[k], names[i]); }
    }
    assert names == names[..k] + names[k..];
  }

  method Sorted(s: set<string>) returns (names: seq<string>)
    ensures Sorts(names, s)
  {
    names := [];
    var rest := s;
    while rest != {}
      invariant rest <= s && Sorts(names, s - rest)
      decreases |rest|
    {
      var name :| name in rest;
      assert name !in Names(names);
      names := Place(names, name);
      rest := rest - {name};
    }
  }

  /** There is only one way to sort a set. */
  lemma {:induction false} SortsOnce(a: seq<string>, b: seq<string>, s: set<string>)
    requires Sorts(a, s) && Sorts(b, s)
    ensures a == b
    decreases |a|
  {
    if b != [] { FirstSorted(b, s); }
    if a == [] {
      assert s == {};
    } else {
      FirstSorted(a, s);
      SameFirst(a, b, s);
      DropFirst(a, s);
      DropFirst(b, s);
      SortsOnce(a[1..], b[1..], s - {a[0]});
    }
  }

  lemma FirstSorted(a: seq<string>, s: set<string>)
    requires Sorts(a, s) && a != []
    ensures a[0] in s
  {
    assert a[0] in Names(a);
  }

  lemma SameFirst(a: seq<string>, b: seq<string>, s: set<string>)
    requires Sorts(a, s) && Sorts(b, s) && a != [] && b != []
    ensures a[0] == b[0]
  {
    assert a[0] in Names(b) by { assert a[0] in Names(a); }
    assert b[0] in Names(a) by { assert b[0] in Names(b); }
    if a[0] != b[0] {
      assert Less(b[0], a[0]) && Less(a[0], b[0]);
      LessTransitive(a[0], b[0], a[0]);
      LessIrreflexive(a[0]);
    }
  }

  lemma DropFirst(a: seq<string>, s: set<string>)
    requires Sorts(a, s) && a != []
    ensures Sorts(a[1..], s - {a[0]})
  {
    forall n | n in Names(a[1..]) ensures n in s && n != a[0] {
      var i :| 0 <= i < |a| - 1 && a[1..][i] == n;
      assert n in Names(a) && Less(a[0], a[i + 1]);
      LessIrreflexive(n);
    }
    forall n | n in s - {a[0]} ensures n in Names(a[1..]) {
      assert n in Names(a);
    }
  }

  // ----- the tracker -----

  function Edges(action: Action, names: seq<string>): seq<Edge>
  {
    seq(|names|, i requires 0 <= i < |names| => Edge(action, names[i]))
  }

  /** `events` reports the step from one active set to the next: what is new in order, then what is gone in order. */
  ghost predicate Reports(events: seq<Edge>, before: set<string>, after: set<string>)
  {
    exists raised, cleared :: Sorts(raised, after - before) && Sorts(cleared, before - after)
      && events == Edges(Raised, raised) + Edges(Cleared, cleared)
  }

  function AlarmNames(names: seq<string>): set<string>
  {
    set n | n in names && IsAlarm(n)
  }

  /** The names an indication carries: from its fourth octet on. */
  function IndicatedNames(payload: bytes): (names: seq<string>)
  {
    if |payload| <= 3 then [] else seq(|payload| - 3, i requires 0 <= i < |payload| - 3 => RcName(payload[i + 3]))
  }

  class AlarmTracker {
    var active: set<string>

    constructor ()
      ensures active == {}
    {
      active := {};
    }

    method Snapshot(names: seq<string>, emit: bool) returns (events: seq<Edge>)
      modifies this
      ensures active == AlarmNames(names)
      ensures if emit then Reports(events, old(active), active) else events == []
    {
      var reported := AlarmNames(names);
      if !emit {
        active := reported;
        return [];
      }
      var raised := Sorted(reported - active);
      var cleared := Sorted(active - reported);
      events := Edges(Raised, raised) + Edges(Cleared, cleared);
      active := reported;
    }

    /** An indication only adds to what is active. */
    method Indicate(payload: bytes) returns (events: seq<Edge>)
      requires forall n | n in active :: IsAlarm(n)
      modifies this
      ensures active == old(active) + AlarmNames(IndicatedNames(payload))
      ensures Reports(events, old(active), active)
    {
      var merged := active + AlarmNames(IndicatedNames(payload));
      var names := Sorted(merged);
      assert AlarmNames(names) == merged by {
        assert forall n | n in merged :: n in Names(names) && IsAlarm(n);
        assert forall n | n in AlarmNames(names) :: n in Names(names);
      }
      events := Snapshot(names, true);
    }
  }

  // ----- runs between silent baselines -----

  /** What an emitting call is told. */
  datatype Told = Snapshot(names: seq<string>) | Indication(payload: bytes)

  function Then(active: set<string>, told: Told): set<string>
  {
    match told
    case Snapshot(names) => AlarmNames(names)
    case Indication(payload) => active + AlarmNames(IndicatedNames(payload))
  }

  /** `events` is what a tracker with `before` active emits over `story`, and `after` what is active then. */
  ghost predicate Emits(before: set<string>, story: seq<Told>, events: seq<Edge>, after: set<string>)
    decreases |story|
  {
    if story == [] then events == [] && after == before
    else exists n :: 0 <= n <= |events| && Reports(events[..n], before, Then(before, story[0]))
                     && Emits(Then(before, story[0]), story[1..], events[n..], after)
  }

  function Fold(active: set<string>, events: seq<Edge>): set<string>
    decreases |events|
  {
    if events == [] then active
    else Fold(if events[0].action == Raised then active + {events[0].name} else active - {events[0].name}, events[1..])
  }

  /** The actions on one alarm, in order. */
  function Of(name: string, events: seq<Edge>): seq<Action>
  {
    if events == [] then []
    else OfOne(name, events[0]) + Of(name, events[1..])
  }

  function OfOne(name: string, e: Edge): seq<Action>
  {
    if e.name == name then [e.action] else []
  }

  /** Raised and cleared by turns, from an alarm that is up or not, to one that is up or not. */
  predicate Alternates(actions: seq<Action>, up: bool, finally: bool)
  {
    if actions == [] then up == finally
    else actions[0] == (if up then Cleared else Raised) && Alternates(actions[1..], !up, finally)
  }

  lemma {:induction false} FoldAppend(active: set<string>, a: seq<Edge>, b: seq<Edge>)
    ensures Fold(active, a + b) == Fold(Fold(active, a), b)
    decreases |a|
  {
    if a == [] {
      assert a + b == b;
    } else {
      assert (a + b)[1..] == a[1..] + b;
      FoldAppend(if a[0].action == Raised then active + {a[0].name} else active - {a[0].name}, a[1..], b);
    }
  }

  lemma {:induction false} FoldEdges(active: set<string>, action: Action, names: seq<string>)
    ensures Fold(active, Edges(action, names))
         == if action == Raised then active + Names(names) else active - Names(names)
    decreases |names|
  {
    if names != [] {
      assert Edges(action, names)[1..] == Edges(action, names[1..]);
      FoldEdges(if action == Raised then active + {names[0]} else active - {names[0]}, action, names[1..]);
      assert Names(names) == {names[0]} + Names(names[1..]);
    }
  }

  lemma {:induction false} OfAppend(name: string, a: seq<Edge>, b: seq<Edge>)
    ensures Of(name, a + b) == Of(name, a) + Of(name, b)
  {
    hide OfOne;
    if a == [] {
      assert a + b == b;
    } else {
      assert (a + b)[1..] == a[1..] + b && (a + b)[0] == a[0];
      OfAppend(name, a[1..], b);
      assert (OfOne(name, a[0]) + Of(name, a[1..])) + Of(name, b)
          == OfOne(name, a[0]) + (Of(name, a[1..]) + Of(name, b));
    }
  }

  lemma {:induction false} OfEdges(name: string, action: Action, names: seq<string>)
    requires Ascending(names)
    ensures Of(name, Edges(action, names)) == if name in names then [action] else []
    decreases |names|
  {
    if names != [] {
      assert Edges(action, names)[1..] == Edges(action, names[1..]);
      OfEdges(name, action, names[1..]);
      if names[0] == name && name in names[1..] { LessIrreflexive(name); }
    }
  }

  lemma OneStep(events: seq<Edge>, before: set<string>, after: set<string>, name: string)
    requires Reports(events, before, after)
    ensures Fold(before, events) == after
    ensures Of(name, events)
         == if name in after - before then [Raised] else if name in before - after then [Cleared] else []
  {
    var raised, cleared :| Sorts(raised, after - before) && Sorts(cleared, before - after)
      && events == Edges(Raised, raised) + Edges(Cleared, cleared);
    FoldAppend(before, Edges(Raised, raised), Edges(Cleared, cleared));
    FoldEdges(before, Raised, raised);
    FoldEdges(before + Names(raised), Cleared, cleared);
    OfAppend(name, Edges(Raised, raised), Edges(Cleared, cleared));
    OfEdges(name, Raised, raised);
    OfEdges(name, Cleared, cleared);
    assert name in raised <==> name in Names(raised);
    assert name in cleared <==> name in Names(cleared);
  }

  lemma {:induction false} AlternatesAppend(a: seq<Action>, b: seq<Action>, up: bool, middle: bool, finally: bool)
    requires Alternates(a, up, middle) && Alternates(b, middle, finally)
    ensures Alternates(a + b, up, finally)
    decreases |a|
  {
    if a == [] {
      assert a + b == b;
    } else {
      assert (a + b)[1..] == a[1..] + b;
      AlternatesAppend(a[1..], b, !up, middle, finally);
    }
  }

  /** Between silent baselines: folding the emitted events over the baseline gives what is active, and the
      events of each alarm are raised and cleared strictly by turns. */
  lemma {:induction false} EdgesTellTheState(before: set<string>, story: seq<Told>, events: seq<Edge>,
                                             after: set<string>, name: string)
    requires Emits(before, story, events, after)
    ensures Fold(before, events) == after
    ensures Alternates(Of(name, events), name in before, name in after)
    decreases |story|
  {
    hide Reports, Fold, Of, Alternates, Then;
    if story == [] {
      NothingTold(before, name);
    } else {
      var next := Then(before, story[0]);
      var n :| 0 <= n <= |events| && Reports(events[..n], before, next) && Emits(next, story[1..], events[n..], after);
      assert events == events[..n] + events[n..];
      OneStep(events[..n], before, next, name);
      EdgesTellTheState(next, story[1..], events[n..], after, name);
      FoldAppend(before, events[..n], events[n..]);
      OfAppend(name, events[..n], events[n..]);
      StepAlternates(name in before, name in next);
      AlternatesAppend(Of(name, events[..n]), Of(name, events[n..]), name in before, name in next, name in after);
    }
  }

  lemma NothingTold(before: set<string>, name: string)
    ensures Fold(before, []) == before && Alternates(Of(name, []), name in before, name in before)
  {}

  lemma StepAlternates(up: bool, finally: bool)
    ensures Alternates(if !up && finally then [Raised] else if up && !finally then [Cleared] else [], up, finally)
  {}

  lemma EmptySorts(names: seq<string>)
    requires Sorts(names, {})
    ensures names == []
  {
    if names != [] { FirstSorted(names, {}); }
  }

  /** The same report twice emits nothing the second time, and an indication never clears. */
  lemma RepeatIsSilent(before: set<string>, told: Told, events: seq<Edge>)
    requires var next := Then(before, told); Reports(events, next, Then(next, told))
    ensures events == []
  {
    var next := Then(before, told);
    assert Then(next, told) == next;
    var raised, cleared :| Sorts(raised, next - next) && Sorts(cleared, next - next)
      && events == Edges(Raised, raised) + Edges(Cleared, cleared);
    EmptySorts(raised);
    EmptySorts(cleared);
  }

  lemma IndicationsNeverClear(before: set<string>, payload: bytes, events: seq<Edge>)
    requires Reports(events, before, Then(before, Indication(payload)))
    ensures forall e | e in events :: e.action == Raised
    ensures forall i: nat | 3 <= i < |payload| && payload[i] != 0 :: RcName(payload[i]) in Fold(before, events)
  {
    hide RcName, Fold, Of, IsAlarm;
    var next := Then(before, Indication(payload));
    var raised, cleared :| Sorts(raised, next - before) && Sorts(cleared, before - next)
      && events == Edges(Raised, raised) + Edges(Cleared, cleared);
    assert before - next == {};
    EmptySorts(cleared);
    OneStep(events, before, next, "");
    forall i: nat | 3 <= i < |payload| && payload[i] != 0 ensures RcName(payload[i]) in Fold(before, events) {
      OnlyZeroIsOk(payload[i]);
      assert IndicatedNames(payload)[i - 3] == RcName(payload[i]);
    }
  }

  /** What is emitted is settled by what is reported. */
  lemma ReportsOnce(a: seq<Edge>, b: seq<Edge>, before: set<string>, after: set<string>)
    requires Reports(a, before, after) && Reports(b, before, after)
    ensures a == b
  {
    var raised, cleared :| Sorts(raised, after - before) && Sorts(cleared, before - after)
      && a == Edges(Raised, raised) + Edges(Cleared, cleared);
    var raised2, cleared2 :| Sorts(raised2, after - before) && Sorts(cleared2, before - after)
      && b == Edges(Raised, raised2) + Edges(Cleared, cleared2);
    SortsOnce(raised, raised2, after - before);
    SortsOnce(cleared, cleared2, before - after);
  }

  // ----- by value -----

  /** Codes with a name, and how the others are shown. */
  lemma NamesOfCodes()
    ensures RcName(0x00) == "OK" && RcName(0x03) == "ActuatorJam"
    ensures RcName(0x01) == "0x01" && RcName(0xFA) == "0xFA"
  {}

  /** No two codes share a name. */
  lemma NamesDiffer(a: byte, b: byte)
    requires RcName(a) == RcName(b)
    ensures a == b
  {
    hide RcName;
    NumberOfName(a);
    NumberOfName(b);
  }

  /** The code a name stands for. */
  function NumberOf(name: string): int
  {
    if name == "OK" then 0x00 else if name == "MotorJam" then 0x02 else if name == "ActuatorJam" then 0x03
    else if name == "Busy" then 0x05 else if name == "ChecksumError" then 0x06 else if name == "FAIL" then 0x0B
    else if name == "NotCalibrated" then 0x0E else if name == "NotConfigured" then 0x0F
    else if name == "HardwareError" then 0x11 else if name == "OutOfRange" then 0x13
    else if name == "UnknownProcedure" then 0x19 else if name == "MinorTMAFault" then 0x1A
    else if name == "MajorTMAFault" then 0x1B else if name == "UnsupportedValue" then 0x1C
    else if name == "ReadOnly" then 0x1D else if name == "UnknownParameter" then 0x1E
    else if name == "WorkingSoftwareMissing" then 0x21 else if name == "InvalidFileContent" then 0x22
    else if name == "FormatError" then 0x24 else if name == "UnsupportedProcedure" then 0x25
    else if name == "InvalidProcedureSequence" then 0x26 else if name == "ActuatorInterference" then 0x27
    else if |name| == 4 then 16 * DigitOf(name[2]) + DigitOf(name[3])
    else -1
  }

  function DigitOf(c: char): int
  {
    if '0' <= c <= '9' then c as int - '0' as int else c as int - 'A' as int + 10
  }

  lemma DigitBack(n: nat)
    requires n < 16
    ensures DigitOf(HexDigit(n)) == n
  {}

  lemma NumberOfName(code: byte)
    ensures NumberOf(RcName(code)) == code
  {
    hide HexDigit, DigitOf;
    if code !in RETURN_CODES {
      DigitBack(code / 16);
      DigitBack(code % 16);
      assert RcName(code)[1] == 'x';
    }
  }

  /** After an indication a name is active exactly when it was before or a code from the fourth octet on has it; the
      code 0 stands for no alarm. */
  lemma IndicationRaisesExactly(before: set<string>, payload: bytes, events: seq<Edge>, name: string)
    requires Reports(events, before, Then(before, Indication(payload)))
    ensures name in Then(before, Indication(payload)) <==>
              name in before || exists i :: 3 <= i < |payload| && payload[i] != 0 && RcName(payload[i]) == name
    ensures name in Fold(before, events) <==>
              name in before || exists i :: 3 <= i < |payload| && payload[i] != 0 && RcName(payload[i]) == name
  {
    hide RcName, Fold, Of, IsAlarm, Reports;
    OneStep(events, before, Then(before, Indication(payload)), name);
    IndicatedExactly(payload, name);
  }

  lemma IndicatedExactly(payload: bytes, name: string)
    ensures name in AlarmNames(IndicatedNames(payload)) <==>
              exists i :: 3 <= i < |payload| && payload[i] != 0 && RcName(payload[i]) == name
  {
    hide RcName, IsAlarm;
    var names := IndicatedNames(payload);
    if name in AlarmNames(names) {
      var k :| 0 <= k < |names| && names[k] == name;
      OnlyZeroIsOk(payload[k + 3]);
      assert 3 <= k + 3 < |payload| && payload[k + 3] != 0 && RcName(payload[k + 3]) == name;
    }
    if i :| 3 <= i < |payload| && payload[i] != 0 && RcName(payload[i]) == name {
      OnlyZeroIsOk(payload[i]);
      assert names[i - 3] == name;
    }
  }

  /** A snapshot leaves active exactly the names it gives, but for OK and none at all. */
  lemma SnapshotSetsExactly(before: set<string>, names: seq<string>, name: string)
    ensures name in Then(before, Snapshot(names)) <==> name in names && name != "OK" && name != ""
  {}

  /** What is new comes before what is gone, and names in the order of their letters. */
  lemma OrderOfEvents(events: seq<Edge>)
    requires Reports(events, {"Busy"}, {"MotorJam", "ActuatorJam"})
    ensures events == [Edge(Raised, "ActuatorJam"), Edge(Raised, "MotorJam"), Edge(Cleared, "Busy")]
  {
    var after: set<string>, before: set<string> := {"MotorJam", "ActuatorJam"}, {"Busy"};
    assert after - before == after && before - after == before;
    var raised, cleared :| Sorts(raised, after) && Sorts(cleared, before)
      && events == Edges(Raised, raised) + Edges(Cleared, cleared);
    assert Less("ActuatorJam", "MotorJam");
    TwoSorted("ActuatorJam", "MotorJam");
    SortsOnce(raised, ["ActuatorJam", "MotorJam"], after);
    OneSorted("Busy");
    SortsOnce(cleared, ["Busy"], before);
  }

  lemma TwoSorted(a: string, b: string)
    requires Less(a, b)
    ensures Sorts([a, b], {a, b})
  {
    assert a in [a, b] && b in [a, b];
  }

  lemma OneSorted(a: string)
    ensures Sorts([a], {a})
  {
    assert a in [a];
  }
}
