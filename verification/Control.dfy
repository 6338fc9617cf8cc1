/** The HDLC control field: I-, S- and U-frames and their sequence numbers modulo eight. */
module Control {
  import opened Bits

  type seqno = n: int | 0 <= n < 8

  const PF := 0x10
  const SNRM: byte := 0x83
  const XID: byte := 0xAF
  const UA: byte := 0x63
  const DISC: byte := 0x43
  const DM: byte := 0x0F
  const FRMR: byte := 0x87

  datatype Kind = I | Rr | Rnr | Rej | Srej | U

  /** `kind`: bit 0 clear is an I-frame, bits 1-0 equal to 01 a supervisory frame, the rest unnumbered. */
  function KindOf(ctrl: byte): Kind
  {
    if ctrl % 2 == 0 then I
    else if ctrl % 4 == 1 then
      match ctrl / 4 % 4
      case 0 => Rr
      case 1 => Rnr
      case 2 => Rej
      case _ => Srej
    else U
  }

  /** N(S): bits 3-1. */
  function NsOf(ctrl: byte): seqno
  {
    ctrl / 2 % 8
  }

  /** N(R): bits 7-5. */
  function NrOf(ctrl: byte): seqno
  {
    ctrl / 32 % 8
  }

  /** The control byte with its poll/final bit clear: which U-frame it is. */
  function WithoutPf(ctrl: byte): byte
  {
    if ctrl / PF % 2 == 1 then ctrl - PF else ctrl
  }

  function HasPf(ctrl: byte): bool
  {
    ctrl / PF % 2 == 1
  }

  /** The sequence number that follows. */
  function Next(n: seqno): seqno
  {
    (n + 1) % 8
  }

  lemma NextOf(n: nat)
    ensures Next(n % 8) == (n + 1) % 8
  {}

  /** Control byte of an I-frame; the or-ed fields do not overlap, so `|` is a sum. */
  function IControl(ns: seqno, nr: seqno): byte
  {
    2 * ns + 32 * nr + PF
  }

  function SCode(kind: Kind): (code: int)
    ensures 0 < code < PF
  {
    match kind
    case Rnr => 5
    case Rej => 9
    case Srej => 13
    case _ => 1
  }

  function SControl(kind: Kind, nr: seqno, pf: bool): byte
  {
    SCode(kind) + 32 * nr + (if pf then PF else 0)
  }

  lemma LowFields(low: int, nr: seqno)
    requires 0 <= low < 32
    ensures var c := low + 32 * nr;
            && c / 32 == nr && c % 2 == low % 2 && c % 4 == low % 4
            && c / 4 % 4 == low / 4 % 4 && c / 16 % 2 == low / 16 % 2
  {
    assert (low + 32 * nr) / 4 == low / 4 + 8 * nr;
    assert (low + 32 * nr) / 16 == low / 16 + 2 * nr;
  }

  /** N(R) and the rest of the byte do not touch. */
  lemma NrApart(low: byte, nr: seqno)
    requires low < 32
    ensures var c := low + 32 * nr; c < 256 && KindOf(c) == KindOf(low) && NrOf(c) == nr && HasPf(c) == HasPf(low)
  {
    LowFields(low, nr);
  }

  lemma ILow(ns: seqno)
    ensures var low := 2 * ns + PF; low < 32 && KindOf(low) == I && HasPf(low)
  {}

  lemma NsApart(ns: seqno, nr: seqno)
    ensures NsOf(IControl(ns, nr)) == ns
  {
    assert (2 * ns + 32 * nr + PF) / 2 == ns + 8 * (2 * nr + 1);
  }

  /** Everything put into an I-frame's control byte is read back from it. */
  lemma IControlRoundTrip(ns: seqno, nr: seqno)
    ensures var c := IControl(ns, nr); KindOf(c) == I && NsOf(c) == ns && NrOf(c) == nr && HasPf(c)
  {
    hide KindOf, NrOf, HasPf, NsOf;
    ILow(ns);
    NrApart(2 * ns + PF, nr);
    NsApart(ns, nr);
  }

  lemma SLow(kind: Kind, pf: bool)
    requires kind in {Rr, Rnr, Rej, Srej}
    ensures var low := SCode(kind) + (if pf then PF else 0); low < 32 && KindOf(low) == kind && HasPf(low) == pf
  {}

  lemma SControlRoundTrip(kind: Kind, nr: seqno, pf: bool)
    requires kind in {Rr, Rnr, Rej, Srej}
    ensures var c := SControl(kind, nr, pf); KindOf(c) == kind && NrOf(c) == nr && HasPf(c) == pf
  {
    hide KindOf, NrOf, HasPf, SCode;
    SLow(kind, pf);
    NrApart(SCode(kind) + (if pf then PF else 0), nr);
  }

  /** The command and response codes of the U-frames are told apart from I- and S-frames, with or
      without the poll/final bit. */
  lemma UFramesAreUnnumbered(code: byte)
    requires code in {SNRM, XID, UA, DISC, DM, FRMR}
    ensures KindOf(code) == U && KindOf(code + PF) == U
    ensures WithoutPf(code) == code == WithoutPf(code + PF)
  {}

  /** The layout of the control byte, octet by octet: what the fields are is settled by what they add up to. */
  lemma ControlByte(c: byte)
    ensures c % 2 == 0 <==> KindOf(c) == I
    ensures c % 4 == 3 <==> KindOf(c) == U
    ensures KindOf(c) == I ==> c == 2 * NsOf(c) + (if HasPf(c) then 16 else 0) + 32 * NrOf(c)
    ensures KindOf(c) == Rr ==> c == 1 + (if HasPf(c) then 16 else 0) + 32 * NrOf(c)
    ensures KindOf(c) == Rnr ==> c == 5 + (if HasPf(c) then 16 else 0) + 32 * NrOf(c)
    ensures KindOf(c) == Rej ==> c == 9 + (if HasPf(c) then 16 else 0) + 32 * NrOf(c)
    ensures KindOf(c) == Srej ==> c == 13 + (if HasPf(c) then 16 else 0) + 32 * NrOf(c)
  {
    Parts(c);
  }

  lemma Parts(c: byte)
    ensures c == c % 16 + 16 * (c / 16 % 2) + 32 * (c / 32) && c / 32 % 8 == c / 32
    ensures c % 2 == c % 16 % 2 && c % 4 == c % 16 % 4 && c / 2 % 8 == c % 16 / 2 && c / 4 % 4 == c % 16 / 4
  {
    var h, low := c / 16, c % 16;
    assert c == 16 * h + low && h == h % 2 + 2 * (h / 2);
    HalvesApart(h, low);
  }

  lemma HalvesApart(h: nat, low: nat)
    requires low < 16
    ensures var c := 16 * h + low;
      c % 2 == low % 2 && c % 4 == low % 4 && c / 2 % 8 == low / 2 && c / 4 % 4 == low / 4 && c / 32 == h / 2
  {
    var c := 16 * h + low;
    assert c / 2 == 8 * h + low / 2;
    assert c / 4 == 4 * h + low / 4;
  }

  /** The codes of the U-frames, without and with the poll/final bit. */
  lemma UnnumberedCodes(c: byte)
    ensures WithoutPf(c) == SNRM <==> c == 0x83 || c == 0x93
    ensures WithoutPf(c) == XID <==> c == 0xAF || c == 0xBF
    ensures WithoutPf(c) == UA <==> c == 0x63 || c == 0x73
    ensures WithoutPf(c) == DISC <==> c == 0x43 || c == 0x53
    ensures WithoutPf(c) == DM <==> c == 0x0F || c == 0x1F
    ensures WithoutPf(c) == FRMR <==> c == 0x87 || c == 0x97
  {}
}
