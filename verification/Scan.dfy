/** Device scan: every unaddressed device matching a masked unique-ID answers, two answers at once garble
    each other, and a garbled answer is resolved by fixing one more bit (section 4.8.3 of 3GPP TS 25.462). */
module Scan {
  import opened Bits

  /** Bit `k` of a unique ID, most significant first, the ID being padded with zeros. */
  predicate Bit(id: bytes, k: nat)
  {
    k / 8 < |id| && ByteBit(id[k / 8], k % 8)
  }

  /** Bit `i` of a number, least significant first. */
  predicate BitAt(n: nat, i: nat)
  {
    if i == 0 then n % 2 == 1 else BitAt(n / 2, i - 1)
  }

  /** Bit `j` of an octet counted from the top. */
  predicate ByteBit(b: byte, j: nat)
    requires j < 8
  {
    BitAt(b, 7 - j)
  }

  /** A device compares the bits the mask selects. */
  predicate Matches(id: bytes, uid: bytes, mask: bytes)
  {
    forall k: nat | k < 8 * |mask| :: Bit(mask, k) ==> Bit(id, k) == Bit(uid, k)
  }

  /** The devices that answer a probe. */
  function Answering(bus: seq<bytes>, uid: bytes, mask: bytes): seq<bytes>
  {
    if bus == [] then []
    else (if Matches(bus[0], uid, mask) then [bus[0]] else []) + Answering(bus[1..], uid, mask)
  }

  // ----- the same, bit by bit -----

  function FirstBits(id: bytes, d: nat): (r: seq<bool>)
    ensures |r| == d
  {
    seq(d, k requires 0 <= k < d => Bit(id, k))
  }

  predicate Agrees(id: bytes, path: seq<bool>)
  {
    FirstBits(id, |path|) == path
  }

  function Agreeing(bus: seq<bytes>, path: seq<bool>): (r: seq<bytes>)
  {
    if bus == [] then []
    else (if Agrees(bus[0], path) then [bus[0]] else []) + Agreeing(bus[1..], path)
  }

  /** How a scan below a path goes: the IDs in the order found, the probes made and how many of them collided. */
  datatype Outcome = Outcome(found: seq<bytes>, probes: nat, collisions: nat, resolved: bool)

  function Bisect(bus: seq<bytes>, path: seq<bool>, maxDepth: nat): Outcome
    decreases maxDepth - |path|
  {
    var answers := Agreeing(bus, path);
    if |answers| <= 1 then Outcome(answers, 1, 0, true)
    else if |path| >= maxDepth then Outcome([], 1, 1, false)
    else
      var a := Bisect(bus, path + [false], maxDepth);
      if !a.resolved then Outcome(a.found, 1 + a.probes, 1 + a.collisions, false)
      else
        var b := Bisect(bus, path + [true], maxDepth);
        Outcome(a.found + b.found, 1 + a.probes + b.probes, 1 + a.collisions + b.collisions, b.resolved)
  }

  // ----- masks -----

  /** The mask that selects the first `d` bits. */
  ghost predicate SelectsFirst(mask: bytes, d: nat)
  {
    && |mask| == (d + 7) / 8
    && (forall i | 0 <= i < d / 8 :: mask[i] == 0xFF)
    && (d % 8 != 0 ==> mask[d / 8] == TopBits(d % 8))
  }

  /** The octet whose upper `j` bits are set. */
  function TopBits(j: nat): byte
    requires j <= 8
  {
    Pow2Widths();
    Pow2Monotone(8 - j, 8);
    0x100 - Pow2(8 - j)
  }

  lemma {:induction false} OnesAbove(w: nat, m: nat, i: nat)
    requires m <= w
    ensures Pow2(m) <= Pow2(w)
    ensures BitAt(Pow2(w) - Pow2(m), i) <==> m <= i < w
    decreases i
  {
    Pow2Monotone(m, w);
    if w > 0 {
      var m' := if m == 0 then 0 else m - 1;
      assert m > 0 ==> Pow2(w) - Pow2(m) == 2 * (Pow2(w - 1) - Pow2(m'));
      assert m == 0 ==> Pow2(w) - Pow2(m) == 2 * (Pow2(w - 1) - Pow2(m')) + 1;
      if i > 0 { OnesAbove(w - 1, m', i - 1); }
    } else {
      NoBits(i);
    }
  }

  lemma {:induction false} NoBits(i: nat)
    ensures !BitAt(0, i)
  {
    if i > 0 { NoBits(i - 1); }
  }

  lemma TopBitsBits(j: nat, k: nat)
    requires j <= 8 && k < 8
    ensures ByteBit(TopBits(j), k) <==> k < j
  {
    hide BitAt;
    Pow2Widths();
    OnesAbove(8, 8 - j, 7 - k);
  }

  /** The key invariant: at depth `d` the mask is exactly the first `d` bits. */
  lemma MaskBits(mask: bytes, d: nat, k: nat)
    requires SelectsFirst(mask, d)
    ensures Bit(mask, k) <==> k < d
  {
    hide ByteBit;
    if k / 8 < d / 8 {
      TopBitsBits(8, k % 8);
      assert TopBits(8) == 0xFF;
    } else if k / 8 == d / 8 && d % 8 != 0 {
      TopBitsBits(d % 8, k % 8);
    }
  }

  /** The ID asked for: the path taken, zeros after it. */
  ghost predicate Spells(uid: bytes, path: seq<bool>)
  {
    |uid| == (|path| + 7) / 8 && forall k: nat :: Bit(uid, k) <==> k < |path| && path[k]
  }

  lemma {:induction false} SetClearBit(n: nat, i: nat, k: nat)
    requires !BitAt(n, i)
    ensures BitAt(n + Pow2(i), k) <==> k == i || BitAt(n, k)
  {
    if i == 0 {
      assert (n + 1) / 2 == n / 2;
    } else {
      assert (n + 2 * Pow2(i - 1)) / 2 == n / 2 + Pow2(i - 1) && (n + 2 * Pow2(i - 1)) % 2 == n % 2;
      if k > 0 {
        SetClearBit(n / 2, i - 1, k - 1);
      }
    }
  }

  lemma {:induction false} SetBitFits(n: nat, i: nat, width: nat)
    requires !BitAt(n, i) && i < width && n < Pow2(width)
    ensures n + Pow2(i) < Pow2(width)
  {
    if i > 0 {
      SetBitFits(n / 2, i - 1, width - 1);
    } else {
      assert Pow2(width) == 2 * Pow2(width - 1);
    }
  }

  /** The octet with bit `j` set as well. */
  function OrBit(b: byte, j: nat): byte
    requires j < 8
  {
    if ByteBit(b, j) then b
    else
      Pow2Widths();
      SetBitFits(b, 7 - j, 8);
      b + Pow2(7 - j)
  }

  lemma OrBitBits(b: byte, j: nat, k: nat)
    requires j < 8 && k < 8
    ensures ByteBit(OrBit(b, j), k) <==> k == j || ByteBit(b, k)
  {
    hide BitAt, Pow2;
    if !ByteBit(b, j) {
      SetClearBit(b, 7 - j, 7 - k);
    }
  }

  // ----- fixing one more bit -----

  /** How many octets the next bit needs: one more once the mask's last octet is full. */
  function WiderBy(mask: bytes): nat
  {
    if mask == [] || mask[|mask| - 1] == 0xFF then |mask| + 1 else |mask|
  }

  /** Filled up with zero octets to the length `n`. */
  function Padded(s: bytes, n: nat): (r: bytes)
    requires |s| <= n
    ensures |r| == n
  {
    s + seq(n - |s|, _ => 0)
  }

  function SetLast(s: bytes, j: nat): (r: bytes)
    requires s != [] && j < 8
    ensures |r| == |s|
  {
    s[|s| - 1 := OrBit(s[|s| - 1], j)]
  }

  lemma PaddedBits(s: bytes, n: nat, k: nat)
    requires |s| <= n
    ensures Bit(Padded(s, n), k) <==> Bit(s, k)
  {
    if |s| <= k / 8 < n { NoBits(7 - k % 8); }
  }

  lemma SetLastBits(s: bytes, j: nat, k: nat)
    requires s != [] && j < 8
    ensures Bit(SetLast(s, j), k) <==> k == 8 * (|s| - 1) + j || Bit(s, k)
  {
    hide ByteBit, OrBit;
    OrBitBits(s[|s| - 1], j, k % 8);
  }

  lemma OrTop(j: nat)
    requires j < 8
    ensures OrBit(TopBits(j), j) == TopBits(j + 1)
    ensures TopBits(j) != 0xFF && TopBits(0) == 0 && TopBits(8) == 0xFF
  {
    hide ByteBit;
    Pow2Widths();
    TopBitsBits(j, j);
    assert Pow2(8 - j) == 2 * Pow2(7 - j);
  }

  lemma MaskWidth(mask: bytes, d: nat)
    requires SelectsFirst(mask, d)
    ensures WiderBy(mask) == d / 8 + 1
  {
    OrTop(d % 8);
  }

  lemma MaskGrows(mask: bytes, d: nat)
    requires SelectsFirst(mask, d)
    ensures |mask| <= WiderBy(mask) == d / 8 + 1
    ensures SelectsFirst(SetLast(Padded(mask, WiderBy(mask)), d % 8), d + 1)
  {
    hide TopBits, OrBit;
    MaskWidth(mask, d);
    OrTop(d % 8);
  }

  lemma SpellsFalse(uid: bytes, path: seq<bool>)
    requires Spells(uid, path)
    ensures Spells(Padded(uid, |path| / 8 + 1), path + [false])
  {
    hide Bit;
    var wide, longer := Padded(uid, |path| / 8 + 1), path + [false];
    assert |wide| == (|longer| + 7) / 8;
    forall k: nat ensures Bit(wide, k) <==> k < |longer| && longer[k] {
      PaddedBits(uid, |path| / 8 + 1, k);
    }
  }

  lemma SpellsTrue(uid: bytes, path: seq<bool>)
    requires Spells(uid, path)
    ensures Spells(SetLast(Padded(uid, |path| / 8 + 1), |path| % 8), path + [true])
  {
    hide Bit;
    var wide := Padded(uid, |path| / 8 + 1);
    forall k: nat ensures Bit(SetLast(wide, |path| % 8), k) <==> k < |path| + 1 && (path + [true])[k] {
      PaddedBits(uid, |path| / 8 + 1, k);
      SetLastBits(wide, |path| % 8, k);
    }
  }

  lemma MatchIsAgreement(id: bytes, uid: bytes, mask: bytes, path: seq<bool>)
    requires SelectsFirst(mask, |path|) && Spells(uid, path)
    ensures Matches(id, uid, mask) <==> Agrees(id, path)
  {
    hide Bit;
    forall k: nat | k < 8 * |mask| ensures Bit(mask, k) <==> k < |path| {
      MaskBits(mask, |path|, k);
    }
    if Matches(id, uid, mask) {
      forall k | 0 <= k < |path| ensures FirstBits(id, |path|)[k] == path[k] {
        assert Bit(mask, k);
      }
    }
    if Agrees(id, path) {
      forall k: nat | k < |path| ensures Bit(id, k) == path[k] {
        assert FirstBits(id, |path|)[k] == path[k];
      }
    }
  }

  lemma {:induction false} AnswersAgree(bus: seq<bytes>, uid: bytes, mask: bytes, path: seq<bool>)
    requires SelectsFirst(mask, |path|) && Spells(uid, path)
    ensures Answering(bus, uid, mask) == Agreeing(bus, path)
  {
    if bus != [] {
      MatchIsAgreement(bus[0], uid, mask, path);
      AnswersAgree(bus[1..], uid, mask, path);
    }
  }

  // ----- the scan -----

  /** A device is remembered under its ID; found again, it keeps the place it first took. */
  function Put(results: seq<bytes>, id: bytes): seq<bytes>
  {
    if id in results then results else results + [id]
  }

  function PutAll(results: seq<bytes>, found: seq<bytes>): seq<bytes>
    decreases |found|
  {
    if found == [] then results else PutAll(Put(results, found[0]), found[1..])
  }

  lemma {:induction false} PutAllAppend(results: seq<bytes>, a: seq<bytes>, b: seq<bytes>)
    ensures PutAll(results, a + b) == PutAll(PutAll(results, a), b)
    decreases |a|
  {
    if a == [] {
      assert a + b == b;
    } else {
      assert (a + b)[1..] == a[1..] + b;
      PutAllAppend(Put(results, a[0]), a[1..], b);
    }
  }

  class Scanner {
    const bus: seq<bytes>
    const maxDepth: nat
    var results: seq<bytes>
    var probes: nat

    constructor (bus: seq<bytes>, maxDepth: nat)
      ensures this.bus == bus && this.maxDepth == maxDepth && results == [] && probes == 0
    {
      this.bus, this.maxDepth, results, probes := bus, maxDepth, [], 0;
    }

    /** `scan`'s inner probe; false is the AisgError. */
    method Probe(uid: bytes, mask: bytes, depth: nat, ghost path: seq<bool>) returns (ok: bool)
      requires |path| == depth <= maxDepth && SelectsFirst(mask, depth) && Spells(uid, path)
      modifies this
      ensures var spec := Bisect(bus, path, maxDepth);
        && ok == spec.resolved && probes == old(probes) + spec.probes
        && results == PutAll(old(results), spec.found)
      decreases maxDepth - depth
    {
      hide SelectsFirst, Spells, Answering, Agreeing, Matches, SetLast, Padded;
      AnswersAgree(bus, uid, mask, path);
      var answers := Answering(bus, uid, mask);
      probes := probes + 1;
      if |answers| <= 1 {
        if |answers| == 1 {
          results := Put(results, answers[0]);
          assert PutAll(results, []) == results && answers[1..] == [];
        }
        return true;
      }
      if depth >= maxDepth {
        return false;
      }
      MaskGrows(mask, depth);
      SpellsFalse(uid, path);
      SpellsTrue(uid, path);
      SameWidth(uid, mask, path);
      var width := WiderBy(mask);
      var bit := depth % 8;
      var baseUid := Padded(uid, width);
      var baseMask := SetLast(Padded(mask, width), bit);
      ok := Probe(baseUid, baseMask, depth + 1, path + [false]);
      if !ok {
        return;
      }
      ghost var a := Bisect(bus, path + [false], maxDepth);
      ghost var b := Bisect(bus, path + [true], maxDepth);
      ok := Probe(SetLast(baseUid, bit), baseMask, depth + 1, path + [true]);
      PutAllAppend(old(results), a.found, b.found);
    }

    method Scan() returns (ok: bool)
      requires results == [] && probes == 0
      modifies this
      ensures var spec := Bisect(bus, [], maxDepth);
        ok == spec.resolved && probes == spec.probes && results == PutAll([], spec.found)
    {
      ok := Probe([], [], 0, []);
    }
  }

  lemma SameWidth(uid: bytes, mask: bytes, path: seq<bool>)
    requires SelectsFirst(mask, |path|) && Spells(uid, path)
    ensures |uid| == |mask|
  {}

  // ----- what a scan finds -----

  /** `a` comes before `b` in the order of unique IDs: at the first bit where they differ it has the zero. */
  ghost predicate Below(a: bytes, b: bytes)
  {
    exists k: nat :: FirstBits(a, k) == FirstBits(b, k) && !Bit(a, k) && Bit(b, k)
  }

  ghost predicate Ascending(ids: seq<bytes>)
  {
    forall i, k | 0 <= i < k < |ids| :: Below(ids[i], ids[k])
  }

  /** One bit more. */
  lemma AgreesNext(id: bytes, path: seq<bool>, b: bool)
    ensures Agrees(id, path + [b]) <==> Agrees(id, path) && Bit(id, |path|) == b
  {
    hide Bit;
    var more := FirstBits(id, |path| + 1);
    assert more == FirstBits(id, |path|) + [Bit(id, |path|)];
    if more == path + [b] {
      assert FirstBits(id, |path|) == more[..|path|] == path;
      assert more[|path|] == b;
    }
  }

  lemma {:induction false} HalvesAgree(bus: seq<bytes>, path: seq<bool>)
    ensures multiset(Agreeing(bus, path))
         == multiset(Agreeing(bus, path + [false])) + multiset(Agreeing(bus, path + [true]))
  {
    hide Agrees;
    if bus != [] {
      AgreesNext(bus[0], path, false);
      AgreesNext(bus[0], path, true);
      HalvesAgree(bus[1..], path);
    }
  }

  lemma {:induction false} AgreeingAgree(bus: seq<bytes>, path: seq<bool>, id: bytes)
    requires id in Agreeing(bus, path)
    ensures Agrees(id, path)
  {
    hide Agrees;
    if !(Agrees(bus[0], path) && id == bus[0]) {
      AgreeingAgree(bus[1..], path, id);
    }
  }

  /** No two devices agree in all of the first `depth` bits, below a path. */
  ghost predicate Apart(bus: seq<bytes>, path: seq<bool>, depth: nat)
  {
    forall p | |p| == depth && path <= p :: |Agreeing(bus, p)| <= 1
  }

  lemma {:induction false} FewerAgree(bus: seq<bytes>, path: seq<bool>, p: seq<bool>)
    requires path <= p
    ensures |Agreeing(bus, p)| <= |Agreeing(bus, path)|
  {
    hide Agrees;
    if bus != [] {
      if Agrees(bus[0], p) { AgreesPrefix(bus[0], path, p); }
      FewerAgree(bus[1..], path, p);
    }
  }

  lemma AgreesPrefix(id: bytes, path: seq<bool>, p: seq<bool>)
    requires path <= p && Agrees(id, p)
    ensures Agrees(id, path)
  {
    hide Bit;
    assert FirstBits(id, |path|) == FirstBits(id, |p|)[..|path|];
  }

  lemma ApartHalves(bus: seq<bytes>, path: seq<bool>, depth: nat)
    requires |path| < depth
    ensures Apart(bus, path, depth) <==> Apart(bus, path + [false], depth) && Apart(bus, path + [true], depth)
  {
    hide Agreeing;
    if Apart(bus, path + [false], depth) && Apart(bus, path + [true], depth) {
      forall p | |p| == depth && path <= p ensures |Agreeing(bus, p)| <= 1 {
        if p[|path|] { assert path + [true] <= p; } else { assert path + [false] <= p; }
      }
    }
  }

  /** A scan resolves every collision exactly when no two devices agree in the first `maxDepth` bits. */
  lemma {:induction false} ResolvedWhenApart(bus: seq<bytes>, path: seq<bool>, maxDepth: nat)
    requires |path| <= maxDepth
    ensures Bisect(bus, path, maxDepth).resolved <==> Apart(bus, path, maxDepth)
    decreases maxDepth - |path|
  {
    hide Agreeing;
    if |Agreeing(bus, path)| <= 1 {
      forall p | |p| == maxDepth && path <= p ensures |Agreeing(bus, p)| <= 1 {
        FewerAgree(bus, path, p);
      }
    } else if |path| < maxDepth {
      ResolvedWhenApart(bus, path + [false], maxDepth);
      ResolvedWhenApart(bus, path + [true], maxDepth);
      ApartHalves(bus, path, maxDepth);
    } else {
      assert !Apart(bus, path, maxDepth) by { assert path <= path; }
    }
  }

  /** Every device that matches is found once for each time it is on the bus, and nothing else is. */
  lemma {:induction false} FindsAll(bus: seq<bytes>, path: seq<bool>, maxDepth: nat)
    requires |path| <= maxDepth && Bisect(bus, path, maxDepth).resolved
    ensures multiset(Bisect(bus, path, maxDepth).found) == multiset(Agreeing(bus, path))
    decreases maxDepth - |path|
  {
    hide Agreeing;
    if |Agreeing(bus, path)| > 1 {
      FindsAll(bus, path + [false], maxDepth);
      FindsAll(bus, path + [true], maxDepth);
      HalvesAgree(bus, path);
    }
  }

  lemma FoundAgree(bus: seq<bytes>, path: seq<bool>, maxDepth: nat, i: nat)
    requires |path| <= maxDepth && Bisect(bus, path, maxDepth).resolved && i < |Bisect(bus, path, maxDepth).found|
    ensures Agrees(Bisect(bus, path, maxDepth).found[i], path)
  {
    hide Agreeing, Bisect, Agrees;
    FindsAll(bus, path, maxDepth);
    var id := Bisect(bus, path, maxDepth).found[i];
    assert id in multiset(Bisect(bus, path, maxDepth).found);
    AgreeingAgree(bus, path, id);
  }

  /** Devices come in ascending order of unique ID. */
  lemma {:induction false} FindsInOrder(bus: seq<bytes>, path: seq<bool>, maxDepth: nat)
    requires |path| <= maxDepth && Bisect(bus, path, maxDepth).resolved
    ensures Ascending(Bisect(bus, path, maxDepth).found)
    decreases maxDepth - |path|
  {
    hide Agreeing, Below, Agrees;
    if |Agreeing(bus, path)| > 1 {
      FindsInOrder(bus, path + [false], maxDepth);
      FindsInOrder(bus, path + [true], maxDepth);
      var a, b := Bisect(bus, path + [false], maxDepth).found, Bisect(bus, path + [true], maxDepth).found;
      forall i, k | 0 <= i < |a| && 0 <= k < |b| ensures Below(a[i], b[k]) {
        FoundAgree(bus, path + [false], maxDepth, i);
        FoundAgree(bus, path + [true], maxDepth, k);
        ZeroBeforeOne(a[i], b[k], path);
      }
    }
  }

  lemma ZeroBeforeOne(a: bytes, b: bytes, path: seq<bool>)
    requires Agrees(a, path + [false]) && Agrees(b, path + [true])
    ensures Below(a, b)
  {
    hide Bit;
    AgreesNext(a, path, false);
    AgreesNext(b, path, true);
    assert FirstBits(a, |path|) == FirstBits(b, |path|);
  }

  /** Every collision costs two more probes; a scan given up has made fewer. */
  lemma {:induction false} ProbesByCollisions(bus: seq<bytes>, path: seq<bool>, maxDepth: nat)
    ensures var b := Bisect(bus, path, maxDepth);
      if b.resolved then b.probes == 2 * b.collisions + 1 else b.probes < 2 * b.collisions
    decreases maxDepth - |path|
  {
    hide Agreeing;
    if |Agreeing(bus, path)| > 1 && |path| < maxDepth {
      ProbesByCollisions(bus, path + [false], maxDepth);
      ProbesByCollisions(bus, path + [true], maxDepth);
    }
  }

  // ----- in terms of the devices alone -----

  lemma {:induction false} PairAgrees(bus: seq<bytes>, p: seq<bool>, i: nat, k: nat)
    requires i < k < |bus| && Agrees(bus[i], p) && Agrees(bus[k], p)
    ensures |Agreeing(bus, p)| >= 2
  {
    hide Agrees;
    if i == 0 {
      OneAgrees(bus[1..], p, k - 1);
    } else {
      PairAgrees(bus[1..], p, i - 1, k - 1);
    }
  }

  lemma {:induction false} OneAgrees(bus: seq<bytes>, p: seq<bool>, i: nat)
    requires i < |bus| && Agrees(bus[i], p)
    ensures |Agreeing(bus, p)| >= 1
  {
    hide Agrees;
    if i > 0 { OneAgrees(bus[1..], p, i - 1); }
  }

  lemma {:induction false} FindOne(bus: seq<bytes>, p: seq<bool>) returns (i: nat)
    requires |Agreeing(bus, p)| >= 1
    ensures i < |bus| && Agrees(bus[i], p)
  {
    hide Agrees;
    if Agrees(bus[0], p) {
      i := 0;
    } else {
      i := FindOne(bus[1..], p);
      i := i + 1;
    }
  }

  lemma {:induction false} FindPair(bus: seq<bytes>, p: seq<bool>) returns (i: nat, k: nat)
    requires |Agreeing(bus, p)| >= 2
    ensures i < k < |bus| && Agrees(bus[i], p) && Agrees(bus[k], p)
  {
    hide Agrees;
    if Agrees(bus[0], p) {
      k := FindOne(bus[1..], p);
      i, k := 0, k + 1;
    } else {
      i, k := FindPair(bus[1..], p);
      i, k := i + 1, k + 1;
    }
  }

  /** No two devices on the bus have the same first bits. */
  ghost predicate PairwiseDiffer(bus: seq<bytes>, depth: nat)
  {
    forall i, k | 0 <= i < k < |bus| :: FirstBits(bus[i], depth) != FirstBits(bus[k], depth)
  }

  lemma ApartMeansDiffer(bus: seq<bytes>, depth: nat)
    ensures Apart(bus, [], depth) <==> PairwiseDiffer(bus, depth)
  {
    hide Bit, Agreeing;
    if Apart(bus, [], depth) {
      forall i, k | 0 <= i < k < |bus| ensures FirstBits(bus[i], depth) != FirstBits(bus[k], depth) {
        var p := FirstBits(bus[i], depth);
        assert [] <= p;
        if FirstBits(bus[k], depth) == p { PairAgrees(bus, p, i, k); }
      }
    }
    if PairwiseDiffer(bus, depth) {
      forall p: seq<bool> | |p| == depth && [] <= p ensures |Agreeing(bus, p)| <= 1 {
        if |Agreeing(bus, p)| >= 2 {
          var i, k := FindPair(bus, p);
          assert false;
        }
      }
    }
  }

  lemma {:induction false} AllAgreeWithNothing(bus: seq<bytes>)
    ensures Agreeing(bus, []) == bus
  {
    if bus != [] {
      assert FirstBits(bus[0], 0) == [];
      AllAgreeWithNothing(bus[1..]);
    }
  }

  lemma BelowDiffer(a: bytes, b: bytes)
    requires Below(a, b)
    ensures a != b
  {}

  lemma {:induction false} PutAllFresh(results: seq<bytes>, found: seq<bytes>)
    requires forall i, k | 0 <= i < k < |found| :: found[i] != found[k]
    requires forall i | 0 <= i < |found| :: found[i] !in results
    ensures PutAll(results, found) == results + found
    decreases |found|
  {
    if found != [] {
      PutAllFresh(results + [found[0]], found[1..]);
      assert results + [found[0]] + found[1..] == results + found;
    }
  }

  /** The whole scan: it succeeds exactly when the unique IDs differ pairwise in their first `maxDepth`
      bits, and then returns every device exactly once, in ascending order, after one probe more than twice
      the collisions. */
  lemma ScanFindsEveryDevice(bus: seq<bytes>, maxDepth: nat)
    ensures var b := Bisect(bus, [], maxDepth);
      && (b.resolved <==> PairwiseDiffer(bus, maxDepth))
      && (b.resolved ==>
            && multiset(PutAll([], b.found)) == multiset(bus)
            && Ascending(PutAll([], b.found))
            && b.probes == 2 * b.collisions + 1)
  {
    hide Agreeing, Bisect, Below;
    ResolvedWhenApart(bus, [], maxDepth);
    ApartMeansDiffer(bus, maxDepth);
    var b := Bisect(bus, [], maxDepth);
    if b.resolved {
      FindsAll(bus, [], maxDepth);
      FindsInOrder(bus, [], maxDepth);
      ProbesByCollisions(bus, [], maxDepth);
      AllAgreeWithNothing(bus);
      forall i, k | 0 <= i < k < |b.found| ensures b.found[i] != b.found[k] {
        BelowDiffer(b.found[i], b.found[k]);
      }
      PutAllFresh([], b.found);
    }
  }

  // ----- in octets -----

  /** The bits of an octet, from the top. */
  lemma BitValues(j: nat)
    requires j < 8
    ensures OrBit(0, j) == [0x80, 0x40, 0x20, 0x10, 0x08, 0x04, 0x02, 0x01][j]
  {
    hide BitAt;
    NoBits(7 - j);
  }

  /** How the first collision is split, and the one when an octet of the mask is full. */
  lemma FirstSplits()
    ensures WiderBy([]) == 1 && SetLast(Padded([], 1), 0) == [0x80]
    ensures WiderBy([0xFF]) == 2 && Padded([0xFF], 2) == [0xFF, 0x00] && SetLast([0xFF, 0x00], 0) == [0xFF, 0x80]
    ensures WiderBy([0x80]) == 1 && SetLast([0x80], 1) == [0xC0]
  {
    BitValues(0);
    TopBitsBits(1, 1);
    Pow2Widths();
    assert OrBit(0x80, 1) == 0xC0;
  }

  lemma {:induction false} SameBits(x: nat, y: nat, n: nat)
    requires x < Pow2(n) && y < Pow2(n) && forall i: nat | i < n :: BitAt(x, i) == BitAt(y, i)
    ensures x == y
  {
    if n > 0 {
      forall i: nat | i < n - 1 ensures BitAt(x / 2, i) == BitAt(y / 2, i) {
        assert BitAt(x, i + 1) == BitAt(y, i + 1);
      }
      SameBits(x / 2, y / 2, n - 1);
      assert BitAt(x, 0) == BitAt(y, 0);
    }
  }

  /** `x` and `y` agree in the `n` digits from the top down to the `j`-th, which only `y` has. */
  ghost predicate LessAt(x: nat, y: nat, n: nat, j: nat)
  {
    j < n && !BitAt(x, j) && BitAt(y, j) && forall i: nat | j < i < n :: BitAt(x, i) == BitAt(y, i)
  }

  lemma {:induction false} LessByBits(x: nat, y: nat, n: nat) returns (j: nat)
    requires x < Pow2(n) && y < Pow2(n) && x < y
    ensures LessAt(x, y, n, j)
  {
    if x / 2 == y / 2 {
      j := 0;
      assert forall i: nat | 0 < i < n :: BitAt(x, i) == BitAt(x / 2, i - 1) == BitAt(y, i);
    } else {
      j := LessByBits(x / 2, y / 2, n - 1);
      forall i: nat | j + 1 < i < n ensures BitAt(x, i) == BitAt(y, i) {
        assert BitAt(x / 2, i - 1) == BitAt(y / 2, i - 1);
      }
      j := j + 1;
    }
  }

  lemma {:induction false} BitsMakeLess(x: nat, y: nat, n: nat, j: nat)
    requires x < Pow2(n) && y < Pow2(n) && LessAt(x, y, n, j)
    ensures x < y
  {
    if j > 0 {
      forall i: nat | j - 1 < i < n - 1 ensures BitAt(x / 2, i) == BitAt(y / 2, i) {
        assert BitAt(x, i + 1) == BitAt(y, i + 1);
      }
      BitsMakeLess(x / 2, y / 2, n - 1, j - 1);
    } else {
      forall i: nat | i < n - 1 ensures BitAt(x / 2, i) == BitAt(y / 2, i) {
        assert BitAt(x, i + 1) == BitAt(y, i + 1);
      }
      SameBits(x / 2, y / 2, n - 1);
    }
  }

  /** The order of unique IDs is that of their octets, the first octet counting most. */
  lemma BelowInOctets(a: bytes, b: bytes)
    requires |a| == |b|
    ensures Below(a, b) <==> exists i :: 0 <= i < |a| && a[..i] == b[..i] && a[i] < b[i]
  {
    hide FirstBits, BitAt;
    if Below(a, b) {
      var k: nat :| FirstBits(a, k) == FirstBits(b, k) && !Bit(a, k) && Bit(b, k);
      DiffersInOctet(a, b, k);
      assert a[..k / 8] == b[..k / 8] && a[k / 8] < b[k / 8];
    }
    if i :| 0 <= i < |a| && a[..i] == b[..i] && a[i] < b[i] {
      Pow2Widths();
      var j := LessByBits(a[i], b[i], 8);
      DiffersAtBit(a, b, i, j);
    }
  }

  lemma SameFirstBits(a: bytes, b: bytes, k: nat)
    ensures FirstBits(a, k) == FirstBits(b, k) <==> forall i: nat | i < k :: Bit(a, i) == Bit(b, i)
  {
    hide Bit;
    if FirstBits(a, k) == FirstBits(b, k) {
      forall i: nat | i < k ensures Bit(a, i) == Bit(b, i) { assert FirstBits(a, k)[i] == FirstBits(b, k)[i]; }
    }
  }

  lemma OctetBit(a: bytes, i: nat, j: nat)
    requires i < |a| && j < 8
    ensures Bit(a, 8 * i + j) == BitAt(a[i], 7 - j)
  {
    hide BitAt;
    assert (8 * i + j) / 8 == i && (8 * i + j) % 8 == j;
  }

  lemma DiffersInOctet(a: bytes, b: bytes, k: nat)
    requires |a| == |b| && FirstBits(a, k) == FirstBits(b, k) && !Bit(a, k) && Bit(b, k)
    ensures k / 8 < |a| && a[..k / 8] == b[..k / 8] && a[k / 8] < b[k / 8]
  {
    hide FirstBits, BitAt, Bit;
    var i, j := k / 8, k % 8;
    SameFirstBits(a, b, k);
    BitInside(b, k);
    Pow2Widths();
    forall m | 0 <= m < i ensures a[m] == b[m] {
      forall d: nat | d < 8 ensures BitAt(a[m], d) == BitAt(b[m], d) {
        OctetBit(a, m, 7 - d);
        OctetBit(b, m, 7 - d);
      }
      SameBits(a[m], b[m], 8);
    }
    OctetBit(a, i, j);
    OctetBit(b, i, j);
    forall d: nat | 7 - j < d < 8 ensures BitAt(a[i], d) == BitAt(b[i], d) {
      OctetBit(a, i, 7 - d);
      OctetBit(b, i, 7 - d);
    }
    BitsMakeLess(a[i], b[i], 8, 7 - j);
  }

  lemma BitInside(b: bytes, k: nat)
    requires Bit(b, k)
    ensures k / 8 < |b|
  {}

  lemma DiffersAtBit(a: bytes, b: bytes, i: nat, j: nat)
    requires |a| == |b| && i < |a| && a[..i] == b[..i] && LessAt(a[i], b[i], 8, j)
    ensures Below(a, b)
  {
    hide FirstBits, BitAt, Bit;
    var k := 8 * i + (7 - j);
    OctetBit(a, i, 7 - j);
    OctetBit(b, i, 7 - j);
    forall m: nat | m < k ensures Bit(a, m) == Bit(b, m) {
      assert m == 8 * (m / 8) + m % 8;
      OctetBit(a, m / 8, m % 8);
      OctetBit(b, m / 8, m % 8);
      if m / 8 < i { assert a[m / 8] == a[..i][m / 8] == b[..i][m / 8] == b[m / 8]; }
    }
    SameFirstBits(a, b, k);
  }
}
