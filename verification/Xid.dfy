/** The XID parameter field: format and group identifier, a length, then type-length-value triples. */
module Xid {
  import opened Bits
  import opened Numbers

  const FI: byte := 0x81
  const GI: byte := 0xF0

  datatype Param = Param(pi: byte, value: bytes)
  datatype Encoded = Encoded(payload: bytes) | TooLong
  datatype Decoded = Decoded(params: map<byte, bytes>) | NotXid

  /** Every value's length fits its octet. */
  predicate ValuesFit(params: seq<Param>)
  {
    forall i | 0 <= i < |params| :: |params[i].value| <= 255
  }

  /** The triples one after the other. */
  function Field(params: seq<Param>): bytes
    requires ValuesFit(params)
  {
    if params == [] then []
    else Field(params[..|params| - 1]) + Triple(params[|params| - 1])
  }

  function Triple(p: Param): bytes
    requires |p.value| <= 255
  {
    [p.pi, |p.value|] + p.value
  }

  /** `xid_encode`: an octet cannot hold a length above 255. */
  method Encode(params: seq<Param>) returns (r: Encoded)
    ensures r.TooLong? <==> !ValuesFit(params) || |Field(params)| > 255
    ensures r.Encoded? ==> r.payload == [FI, GI, |Field(params)|] + Field(params)
  {
    var field: bytes := [];
    for i := 0 to |params|
      invariant ValuesFit(params[..i]) && field == Field(params[..i])
    {
      if |params[i].value| > 255 {
        return TooLong;
      }
      assert params[..i + 1][..i] == params[..i];
      field := field + [params[i].pi, |params[i].value|] + params[i].value;
    }
    assert params[..|params|] == params;
    if |field| > 255 {
      return TooLong;
    }
    return Encoded([FI, GI, |field|] + field);
  }

  /** The triples a field is read as: a single last octet is passed over, and a value that ends the field
      early is taken as short as it is. */
  function Triples(field: bytes): seq<Param>
  {
    if |field| < 2 then []
    else
      var end := Min(2 + field[1] as int, |field|);
      [Param(field[0], field[2..end])] + Triples(field[end..])
  }

  function From(field: bytes, i: nat): bytes
  {
    if i <= |field| then field[i..] else []
  }

  lemma NextTriple(field: bytes, i: nat, end: nat)
    requires i + 2 <= |field| && end == Min(i + 2 + field[i + 1] as int, |field|)
    ensures Triples(From(field, i))
         == [Param(field[i], field[i + 2..end])] + Triples(From(field, i + 2 + field[i + 1] as int))
  {
    assert From(field, i + 2 + field[i + 1] as int) == field[end..];
    var rest := field[i..];
    assert rest[2..end - i] == field[i + 2..end];
    assert rest[end - i..] == field[end..];
  }

  lemma NoTriple(field: bytes)
    requires |field| < 2
    ensures Triples(field) == []
  {}

  lemma AssignedNone()
    ensures Assigned([]) == map[]
  {}

  lemma AssignedNext(params: seq<Param>, p: Param)
    ensures Assigned(params + [p]) == Assigned(params)[p.pi := p.value]
  {
    assert (params + [p])[..|params|] == params;
  }

  /** The parameters by identifier, a later value taking the place of an earlier one. */
  function Assigned(params: seq<Param>): map<byte, bytes>
  {
    if params == [] then map[]
    else
      var last := params[|params| - 1];
      Assigned(params[..|params| - 1])[last.pi := last.value]
  }

  predicate HasHeader(payload: bytes)
  {
    |payload| >= 3 && payload[0] == FI && payload[1] == GI
  }

  function FieldOf(payload: bytes): bytes
    requires HasHeader(payload)
  {
    payload[3..Min(3 + payload[2] as int, |payload|)]
  }

  /** `xid_decode`: an error exactly without the header; otherwise it ends on every payload. */
  method Decode(payload: bytes) returns (r: Decoded)
    ensures r == if HasHeader(payload) then Decoded(Assigned(Triples(FieldOf(payload)))) else NotXid
  {
    hide Triples, Assigned;
    if |payload| < 3 || payload[0] != FI || payload[1] != GI {
      return NotXid;
    }
    var field := payload[3..Min(3 + payload[2] as int, |payload|)];
    var params: map<byte, bytes> := map[];
    var i := 0;
    ghost var done: seq<Param> := [];
    assert From(field, 0) == field;
    AssignedNone();
    while i + 2 <= |field|
      invariant 0 <= i && params == Assigned(done) && done + Triples(From(field, i)) == Triples(field)
      decreases |field| - i
    {
      var pi, pl := field[i], field[i + 1] as int;
      var end := Min(i + 2 + pl, |field|);
      NextTriple(field, i, end);
      var p := Param(pi, field[i + 2..end]);
      AssignedNext(done, p);
      params := params[pi := field[i + 2..end]];
      done := done + [p];
      i := i + 2 + pl;
    }
    NoTriple(From(field, i));
    assert done + [] == done;
    return Decoded(params);
  }

  // ----- decoding undoes encoding -----

  lemma FieldAppend(params: seq<Param>, p: Param)
    requires ValuesFit(params) && |p.value| <= 255
    ensures ValuesFit(params + [p]) && Field(params + [p]) == Field(params) + Triple(p)
  {
    assert (params + [p])[..|params|] == params;
  }

  lemma BothEnds<T>(xs: seq<T>)
    requires |xs| >= 2
    ensures var init, last := xs[..|xs| - 1], xs[|xs| - 1];
      xs == init + [last] && xs[1..] == init[1..] + [last] && init[0] == xs[0]
  {}

  lemma {:induction false} FieldFromFront(params: seq<Param>)
    requires ValuesFit(params) && params != []
    ensures Field(params) == Triple(params[0]) + Field(params[1..])
    decreases |params|
  {
    hide Field, Triple;
    if |params| == 1 {
      assert params == [] + [params[0]] && params[1..] == [];
      FieldAppend([], params[0]);
      NoField();
      assert [] + Triple(params[0]) == Triple(params[0]) + [];
    } else {
      var init, last := params[..|params| - 1], params[|params| - 1];
      BothEnds(params);
      FieldAppend(init, last);
      FieldFromFront(init);
      FieldAppend(init[1..], last);
      Reassociate(Triple(params[0]), Field(init[1..]), Triple(last));
    }
  }

  lemma Reassociate(a: bytes, b: bytes, c: bytes)
    ensures (a + b) + c == a + (b + c)
  {}

  lemma NoField()
    ensures Field([]) == []
  {}

  lemma {:induction false} TriplesOfField(params: seq<Param>)
    requires ValuesFit(params)
    ensures Triples(Field(params)) == params
  {
    if params == [] {
    } else {
      FieldFromFront(params);
      var first, rest := params[0], Field(params[1..]);
      var field := Field(params);
      assert field[0] == first.pi && field[1] == |first.value|;
      assert field[2..2 + field[1]] == first.value && field[2 + field[1]..] == rest;
      TriplesOfField(params[1..]);
    }
  }

  /** Whatever follows the field on the wire, decoding an encoded list gives the values last given. */
  lemma RoundTrip(params: seq<Param>, after: bytes)
    requires ValuesFit(params) && |Field(params)| <= 255
    ensures
      var payload := [FI, GI, |Field(params)|] + Field(params) + after;
      HasHeader(payload) && Triples(FieldOf(payload)) == params
  {
    var payload := [FI, GI, |Field(params)|] + Field(params) + after;
    assert FieldOf(payload) == Field(params);
    TriplesOfField(params);
  }

  /** For each parameter the last value given counts, and no other key appears. */
  lemma {:induction false} LastValueCounts(params: seq<Param>, k: nat)
    requires k < |params| && forall i | k < i < |params| :: params[i].pi != params[k].pi
    ensures params[k].pi in Assigned(params) && Assigned(params)[params[k].pi] == params[k].value
  {
    var init := params[..|params| - 1];
    if k < |params| - 1 {
      LastValueCounts(init, k);
    }
  }

  lemma {:induction false} OnlyGivenKeys(params: seq<Param>, pi: byte)
    ensures pi in Assigned(params) <==> exists i :: 0 <= i < |params| && params[i].pi == pi
  {
    if params != [] {
      var init := params[..|params| - 1];
      OnlyGivenKeys(init, pi);
      assert forall i | 0 <= i < |init| :: init[i] == params[i];
      assert params == init + [params[|params| - 1]];
    }
  }

  // ----- encoding undoes decoding -----

  /** Some value is longer than what is left of the field. */
  predicate CutShort(field: bytes)
  {
    |field| >= 2 && (2 + field[1] as int > |field| || CutShort(field[2 + field[1] as int..]))
  }

  lemma {:induction false} TriplesFit(field: bytes)
    ensures ValuesFit(Triples(field))
    decreases |field|
  {
    if |field| >= 2 {
      TriplesFit(field[Min(2 + field[1] as int, |field|)..]);
    }
  }

  /** Unless its last value is cut short, a field is what its triples encode to, up to an odd last octet. */
  lemma {:induction false} Reencoded(field: bytes)
    requires !CutShort(field)
    ensures ValuesFit(Triples(field))
    ensures var again := Field(Triples(field)); again <= field && |field| - |again| <= 1
    decreases |field|
  {
    TriplesFit(field);
    if |field| >= 2 {
      ReencodedStep(field);
      Reencoded(field[2 + field[1] as int..]);
    }
  }

  lemma ReencodedStep(field: bytes)
    requires |field| >= 2 && 2 + field[1] as int <= |field| && ValuesFit(Triples(field))
    ensures var rest := field[2 + field[1] as int..]; var first := field[..2 + field[1] as int];
      && ValuesFit(Triples(rest)) && Field(Triples(field)) == first + Field(Triples(rest)) && field == first + rest
  {
    var rest := field[2 + field[1] as int..];
    TriplesFit(rest);
    FieldFromFront(Triples(field));
    assert Triples(field)[1..] == Triples(rest);
    assert Triple(Triples(field)[0]) == field[..2 + field[1] as int];
  }

  // ----- octet by octet -----

  /** A triple goes out as identifier, length, value; the header is the two identifiers and the length of all. */
  lemma EncodedOctets(pi: byte, value: bytes)
    requires |value| <= 253
    ensures ValuesFit([Param(pi, value)]) && Field([Param(pi, value)]) == [pi, |value|] + value
    ensures [FI, GI, |Field([Param(pi, value)])|] + Field([Param(pi, value)])
         == [0x81, 0xF0, |value| + 2, pi, |value|] + value
  {
    FieldAppend([], Param(pi, value));
    NoField();
    assert [] + [Param(pi, value)] == [Param(pi, value)];
  }

  /** A payload is a parameter field exactly when it starts with these two octets and has a length; what follows the
      length is read no further than it says. */
  lemma HeaderOctets(payload: bytes)
    ensures HasHeader(payload) <==> |payload| >= 3 && payload[0] == 0x81 && payload[1] == 0xF0
    ensures HasHeader(payload) ==>
              FieldOf(payload) == if 3 + payload[2] <= |payload| then payload[3..3 + payload[2]] else payload[3..]
  {}

  /** A value ends where its length says, or with the field; less than two octets are no triple. */
  lemma TriplesFromFront(field: bytes)
    ensures |field| < 2 ==> Triples(field) == []
    ensures |field| >= 2 ==>
              var end := 2 + field[1] as int;
              Triples(field)
              == if end <= |field| then [Param(field[0], field[2..end])] + Triples(field[end..])
                 else [Param(field[0], field[2..])]
  {
    if |field| >= 2 && 2 + field[1] as int > |field| {
      assert field[|field|..] == [] && field[2..|field|] == field[2..];
      NoTriple([]);
    }
  }
}
