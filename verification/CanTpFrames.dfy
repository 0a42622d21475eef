/** Frame layout of CanTp: what the sender assembles and what the receiver's length check makes of it. */
module CanTpFrames {
  import opened Bytes
  import opened CanTpConfig

  // ----- Request admission -------------------------------------------------------------------

  /** CanTp_Prv_TxPciInit */
  function TxPci(c: TxConnection, len: nat): Pci
    requires c.Valid()
  {
    if len + c.A() + 1 <= DEFAULT_CAN_DL then SfCan
    else if c.txDl > DEFAULT_CAN_DL && len + c.A() + 2 <= c.txDl then SfFd
    else if c.txDl > DEFAULT_CAN_DL && len > MAX_FF_DL then FfFd
    else FfCan
  }

  /** The longest SDU that CanTp_Transmit admits. */
  function MaxLength(c: TxConnection, len: nat): nat
    requires c.Valid()
  {
    if c.functional then
      if TxPci(c, len) == SfCan then c.txDl - 1 - c.A() else c.txDl - 2 - c.A()
    else if c.txDl > DEFAULT_CAN_DL then MAX_FD_FF_DL else MAX_FF_DL
  }

  predicate Accepts(c: TxConnection, len: nat)
    requires c.Valid()
  {
    0 < len <= MaxLength(c, len)
  }

  /** A functional request is admitted exactly when it fits one frame. */
  lemma FunctionalIsSingle(c: TxConnection, len: nat)
    requires c.Valid() && c.functional && len > 0
    ensures Accepts(c, len) <==> IsSingle(TxPci(c, len))
  {
  }

  /** A physical request is admitted up to 65535 bytes on CAN FD, although a first frame could announce more. */
  lemma PhysicalLimit(c: TxConnection, len: nat)
    requires c.Valid() && !c.functional
    ensures Accepts(c, len) <==> 0 < len <= if c.txDl > DEFAULT_CAN_DL then 0xFFFF else 0xFFF
  {
  }

  // ----- Assembly ------------------------------------------------------------------------------

  function Padded(c: TxConnection, body: bytes): bytes
    requires |body| <= MAX_NPDU
  {
    if c.padding then body + Fill(CanDl(|body|) - |body|, c.fill) else body
  }

  function SinglePci(p: Pci, len: nat): bytes {
    if p == SfCan then [Low8(len)] else [0, Low8(len)]
  }

  function FirstPci(p: Pci, len: nat): bytes {
    if p == FfCan then [Low8(0x10 + len / 0x100 % 0x100), Low8(len)]
    else [0x10, 0x00, Low8(len / 0x100_0000), Low8(len / 0x1_0000), Low8(len / 0x100), Low8(len)]
  }

  /** SDU bytes carried by a first frame. */
  function FirstPayload(c: TxConnection, len: nat): (n: nat)
    requires c.Valid() && IsFirst(TxPci(c, len))
    ensures 0 < n < len
  {
    c.txDl - c.A() - PciSize(TxPci(c, len))
  }

  function SingleFrame(c: TxConnection, sdu: bytes): bytes
    requires c.Valid() && IsSingle(TxPci(c, |sdu|))
  {
    Padded(c, c.Header() + SinglePci(TxPci(c, |sdu|), |sdu|) + sdu)
  }

  function FirstFrame(c: TxConnection, sdu: bytes): bytes
    requires c.Valid() && IsFirst(TxPci(c, |sdu|))
  {
    c.Header() + FirstPci(TxPci(c, |sdu|), |sdu|) + sdu[..FirstPayload(c, |sdu|)]
  }

  function ConsecutiveFrame(c: TxConnection, sn: nat, data: bytes): bytes
    requires c.Valid() && sn < 16 && |data| <= c.Payload()
  {
    Padded(c, c.Header() + [0x20 + sn] + data)
  }

  function FlowControlFrame(r: RxConnection, status: nat, bs: byte): bytes
    requires status < 16
  {
    var body := r.Header() + [0x30 + status, bs, r.stmin];
    if r.padding then body + Fill(DEFAULT_CAN_DL - |body|, r.fill) else body
  }

  // ----- Receiver's view -----------------------------------------------------------------------

  const SINGLE: nat := 0
  const FIRST: nat := 1
  const CONSECUTIVE: nat := 2
  const FLOW_CONTROL: nat := 3

  /** High nibble of the first PCI byte. */
  function FrameType(a: nat, f: bytes): nat {
    At(f, a) / 16
  }

  function LowNibble(a: nat, f: bytes): nat {
    At(f, a) % 16
  }

  /** CanTp_RxContextType after CanTp_Prv_RxSduLengthCheck; low is the SN or the flow status. */
  datatype Context = Context(ok: bool, canDl: nat, offset: nat, sduLength: nat, low: nat)

  function SingleCheck(r: RxConnection, f: bytes): Context
    requires r.Valid()
  {
    var a, low := r.A(), LowNibble(r.A(), f);
    if |f| <= DEFAULT_CAN_DL then
      var offset := a + 1;
      var dl := if low != 0 && low <= DEFAULT_CAN_DL - offset
                then (if r.padding then DEFAULT_CAN_DL else offset + low) else INVALID_DL;
      Context(|f| >= dl, dl, offset, low, low)
    else
      var offset, sf := a + 2, At(f, a + 1) as nat;
      var dl := if low == 0 && sf > 7 - a && sf <= |f| - offset && offset + sf <= MAX_NPDU
                then (if r.padding then CanDl(offset + sf) else offset + sf) else INVALID_DL;
      Context(|f| >= dl, dl, offset, sf, low)
  }

  function FirstCheck(r: RxConnection, f: bytes): Context
    requires r.Valid()
  {
    var a := r.A();
    var dl := if ValidDl(|f|) then |f| else INVALID_DL;
    var ffMin := dl - a - (if |f| > DEFAULT_CAN_DL then 1 else 0);
    var len12 := LowNibble(a, f) * 0x100 + At(f, a + 1);
    var len32 := At(f, a + 2) * 0x100_0000 + At(f, a + 3) * 0x1_0000 + At(f, a + 4) * 0x100 + At(f, a + 5);
    var len := if len12 == 0 then len32 else len12;
    var offset := a + PciSize(if len12 == 0 then FfFd else FfCan);
    var dl' := if len12 == 0 && len32 <= MAX_FF_DL then INVALID_DL else dl;
    var dl'' := if r.functional || len < ffMin then INVALID_DL else dl';
    Context(|f| >= dl'', dl'', offset, len, LowNibble(a, f))
  }

  function ConsecutiveCheck(r: RxConnection, rxDl: nat, rem: nat, f: bytes): Context
    requires r.Valid() && ValidDl(rxDl)
  {
    var offset := r.A() + 1;
    var dl := if rem < rxDl - offset then rem + offset else rxDl;
    var dl' := if r.padding then CanDl(dl) else dl;
    Context(|f| >= dl', dl', offset, 0, LowNibble(r.A(), f))
  }

  /** The sender checks flow control frames against its own transmit connection. */
  function FlowControlCheck(c: TxConnection, f: bytes): Context
    requires c.Valid()
  {
    var dl := if c.padding then DEFAULT_CAN_DL else 3 + c.A();
    Context(|f| >= dl, dl, c.A() + 1, 0, LowNibble(c.A(), f))
  }

  // ----- The receiver inverts the sender ---------------------------------------------------------

  /** A received frame that starts with header, PCI and data shows each of them at its place. */
  lemma Layout(h: bytes, pci: bytes, data: bytes, got: bytes)
    requires h + pci + data <= got
    ensures |h| + |pci| + |data| <= |got|
    ensures forall i :: 0 <= i < |pci| ==> got[|h| + i] == pci[i]
    ensures got[|h| + |pci|..|h| + |pci| + |data|] == data
  {
    var body := h + pci + data;
    assert forall i :: 0 <= i < |body| ==> got[i] == body[i];
    assert forall i :: 0 <= i < |pci| ==> body[|h| + i] == pci[i];
    assert forall i :: 0 <= i < |data| ==> body[|h| + |pci| + i] == data[i];
  }

  /** A padded frame keeps its body in front, and the bus never shortens it. */
  lemma PaddedOnWire(c: TxConnection, body: bytes, got: bytes)
    requires |body| <= MAX_NPDU && OnWire(Padded(c, body), got)
    ensures body <= got && |got| >= (if c.padding then CanDl(|body|) else |body|)
    ensures |got| <= 8 <==> |body| <= 8
  {
  }

  /** The length check on a classic single frame. */
  lemma ClassicCheck(r: RxConnection, len: nat, got: bytes)
    requires r.Valid() && 0 < len <= 7 - r.A() && |got| <= 8 && At(got, r.A()) as nat == len
    requires |got| >= if r.padding then CanDl(r.A() + 1 + len) else r.A() + 1 + len
    ensures FrameType(r.A(), got) == SINGLE
    ensures var x := SingleCheck(r, got); x.ok && x.sduLength == len && x.offset == r.A() + 1
  {
  }

  /** The length check on a CAN FD single frame. */
  lemma FdCheck(r: RxConnection, len: nat, got: bytes)
    requires r.Valid() && 7 - r.A() < len && r.A() + 2 + len <= MAX_NPDU && |got| > 8
    requires At(got, r.A()) == 0 && At(got, r.A() + 1) as nat == len
    requires |got| >= r.A() + 2 + len && (r.padding ==> |got| >= CanDl(r.A() + 2 + len))
    ensures FrameType(r.A(), got) == SINGLE
    ensures var x := SingleCheck(r, got); x.ok && x.sduLength == len && x.offset == r.A() + 2
  {
  }

  /** Whatever the bus appends, the single frame decodes to the exact SDU. */
  lemma SingleFrameDecodes(c: TxConnection, r: RxConnection, sdu: bytes, got: bytes)
    requires Matched(c, r) && Accepts(c, |sdu|) && IsSingle(TxPci(c, |sdu|))
    requires OnWire(SingleFrame(c, sdu), got)
    ensures FrameType(r.A(), got) == SINGLE
    ensures var x := SingleCheck(r, got);
            x.ok && x.sduLength == |sdu| && x.offset + |sdu| <= |got|
            && got[x.offset..x.offset + |sdu|] == sdu
  {
    hide OnWire, Padded, SingleCheck, FrameType, CanDl;
    SingleFits(c, |sdu|);
    var pci := SinglePci(TxPci(c, |sdu|), |sdu|);
    var body := c.Header() + pci + sdu;
    PaddedOnWire(c, body, got);
    Layout(c.Header(), pci, sdu, got);
    assert got[c.A() + 0] == pci[0];
    if TxPci(c, |sdu|) == SfCan {
      ClassicCheck(r, |sdu|, got);
    } else {
      assert got[c.A() + 1] == pci[1];
      FdCheck(r, |sdu|, got);
    }
  }

  /** The first frame passes FF_DLmin of ISO 15765-2 Table 14, yields the exact length, and leaves a remainder. */
  lemma FirstFrameDecodes(c: TxConnection, r: RxConnection, sdu: bytes, got: bytes)
    requires Matched(c, r) && !r.functional && Accepts(c, |sdu|) && IsFirst(TxPci(c, |sdu|))
    requires OnWire(FirstFrame(c, sdu), got)
    ensures got == FirstFrame(c, sdu) && |got| == c.txDl && FrameType(r.A(), got) == FIRST
    ensures var x := FirstCheck(r, got);
            x.ok && x.canDl == c.txDl && x.sduLength == |sdu|
            && |got| - x.offset == FirstPayload(c, |sdu|) < |sdu|
            && got[x.offset..] == sdu[..FirstPayload(c, |sdu|)]
  {
    hide OnWire;
    var p := TxPci(c, |sdu|);
    var f := FirstFrame(c, sdu);
    assert |f| == c.txDl;
    FullOnWire(f, got);
    FirstFrameBytes(c, sdu);
    if p == FfCan { LengthBytes12(|sdu|); } else { LengthBytes32(|sdu|); }
  }

  lemma FirstFrameBytes(c: TxConnection, sdu: bytes)
    requires c.Valid() && IsFirst(TxPci(c, |sdu|))
    ensures var f, p, a := FirstFrame(c, sdu), TxPci(c, |sdu|), c.A();
            var pci := FirstPci(p, |sdu|);
            && |f| == c.txDl && f[a] == pci[0] && f[a + 1] == pci[1]
            && (p == FfFd ==> f[a + 2] == pci[2] && f[a + 3] == pci[3] && f[a + 4] == pci[4] && f[a + 5] == pci[5])
            && f[a + PciSize(p)..] == sdu[..FirstPayload(c, |sdu|)]
  {
    hide FirstPci, TxPci;
    var pci := FirstPci(TxPci(c, |sdu|), |sdu|);
    FirstPciSize(TxPci(c, |sdu|), |sdu|);
    Layout(c.Header(), pci, sdu[..FirstPayload(c, |sdu|)], FirstFrame(c, sdu));
    assert forall i :: 0 <= i < |pci| ==> FirstFrame(c, sdu)[c.A() + i] == pci[i];
  }

  lemma FirstPciSize(p: Pci, len: nat)
    requires IsFirst(p)
    ensures |FirstPci(p, len)| == PciSize(p)
  {
  }

  lemma LengthBytes12(len: nat)
    requires 0 < len <= MAX_FF_DL
    ensures var s := FirstPci(FfCan, len); s[0] / 16 == 1 && (s[0] as int) % 16 * 0x100 + s[1] as int == len
  {
  }

  lemma LengthBytes32(len: nat)
    requires MAX_FF_DL < len <= MAX_FD_FF_DL
    ensures var s := FirstPci(FfFd, len);
            (s[2] as int) * 0x100_0000 + (s[3] as int) * 0x1_0000 + (s[4] as int) * 0x100 + s[5] as int == len
  {
  }

  /** A consecutive frame passes the check of a receiver that expects exactly its data. */
  lemma ConsecutiveFrameDecodes(c: TxConnection, r: RxConnection, sn: nat, rem: nat, data: bytes, got: bytes)
    requires Matched(c, r) && sn < 16 && rem > 0 && |data| == Min(rem, c.Payload())
    requires OnWire(ConsecutiveFrame(c, sn, data), got)
    ensures FrameType(r.A(), got) == CONSECUTIVE
    ensures var x := ConsecutiveCheck(r, c.txDl, rem, got);
            x.ok && x.low == sn && x.offset + |data| <= |got|
            && Min(rem, x.canDl - x.offset) == |data|
            && got[x.offset..x.offset + |data|] == data
  {
    hide OnWire, Padded, CanDl;
    var body := c.Header() + [0x20 + sn] + data;
    PaddedOnWire(c, body, got);
    Layout(c.Header(), [0x20 + sn], data, got);
    assert got[c.A() + 0] == 0x20 + sn;
    FullDl(c.txDl);
  }

  lemma FullDl(n: nat)
    requires ValidDl(n)
    ensures CanDl(n) == n
  {
  }

  /** A flow control frame reaches the sender with its status and block size intact. */
  lemma FlowControlFrameDecodes(c: TxConnection, r: RxConnection, status: nat, bs: byte, got: bytes)
    requires Matched(c, r) && status < 16
    requires OnWire(FlowControlFrame(r, status, bs), got)
    ensures FrameType(c.A(), got) == FLOW_CONTROL
    ensures var x := FlowControlCheck(c, got);
            x.ok && x.low == status && At(got, x.offset) == bs && At(got, x.offset + 1) == r.stmin
  {
    var body := r.Header() + [0x30 + status, bs, r.stmin];
    assert body <= FlowControlFrame(r, status, bs) <= got;
    assert got[c.A()] == body[c.A()] && got[c.A() + 1] == body[c.A() + 1] && got[c.A() + 2] == body[c.A() + 2];
  }

  // ----- Assembly in place -----------------------------------------------------------------------

  /** CanTp_Prv_ArrayInit, and the copies made by the upper layer, on a slice of the frame buffer. */
  method CopyInto(buf: array<byte>, at: nat, src: bytes)
    requires at + |src| <= buf.Length
    modifies buf
    ensures forall i :: at <= i < at + |src| ==> buf[i] == src[i - at]
    ensures forall i :: 0 <= i < buf.Length && !(at <= i < at + |src|) ==> buf[i] == old(buf[i])
  {
    for k := 0 to |src|
      invariant forall i :: at <= i < at + k ==> buf[i] == src[i - at]
      invariant forall i :: 0 <= i < buf.Length && !(at <= i < at + k) ==> buf[i] == old(buf[i])
    {
      buf[at + k] := src[k];
    }
  }

  /** The padding step: grows the frame to the next CAN_DL when padding is configured. */
  method PadInto(c: TxConnection, buf: array<byte>, len: nat) returns (dl: nat)
    requires len <= MAX_NPDU == buf.Length
    modifies buf
    ensures dl == if c.padding then CanDl(len) else len
    ensures forall i :: len <= i < dl ==> buf[i] == c.fill
    ensures forall i :: 0 <= i < len ==> buf[i] == old(buf[i])
  {
    dl := len;
    if c.padding {
      dl := CanDl(len);
      CopyInto(buf, len, Fill(dl - len, c.fill));
    }
  }

  /** CanTp_Prv_CreateTxSingleFrame: data first, then padding, then address and PCI in front. */
  method CreateSingleFrame(c: TxConnection, sdu: bytes, buf: array<byte>) returns (dl: nat)
    requires c.Valid() && IsSingle(TxPci(c, |sdu|)) && buf.Length == MAX_NPDU
    modifies buf
    ensures dl <= buf.Length && buf[..dl] == SingleFrame(c, sdu)
  {
    SingleFits(c, |sdu|);
    hide CanDl, TxPci;
    dl := Assemble(c, SinglePci(TxPci(c, |sdu|), |sdu|), sdu, buf);
  }

  /** A single frame holds its SDU. */
  lemma SingleFits(c: TxConnection, len: nat)
    requires c.Valid() && IsSingle(TxPci(c, len))
    ensures c.A() + |SinglePci(TxPci(c, len), len)| + len <= MAX_NPDU
  {
  }

  /** A frame is given by its parts. */
  lemma Assembled(c: TxConnection, pci: bytes, data: bytes, f: bytes)
    requires c.Valid() && c.A() + |pci| + |data| <= MAX_NPDU
    requires |f| == if c.padding then CanDl(c.A() + |pci| + |data|) else c.A() + |pci| + |data|
    requires c.addressFormat != 0 ==> f[0] == c.address
    requires forall i :: 0 <= i < |pci| ==> f[c.A() + i] == pci[i]
    requires forall i :: 0 <= i < |data| ==> f[c.A() + |pci| + i] == data[i]
    requires forall i :: c.A() + |pci| + |data| <= i < |f| ==> f[i] == c.fill
    ensures f == Padded(c, c.Header() + pci + data)
  {
    hide CanDl;
    var body := c.Header() + pci + data;
    assert forall i :: 0 <= i < |body| ==> f[i] == body[i];
    assert f[..|body|] == body;
    assert f[|body|..] == Fill(|f| - |body|, c.fill);
    assert f == f[..|body|] + f[|body|..];
  }

  /** Data, padding, address and PCI, in this order. */
  method Assemble(c: TxConnection, pci: bytes, data: bytes, buf: array<byte>) returns (dl: nat)
    requires c.Valid() && c.A() + |pci| + |data| <= MAX_NPDU == buf.Length
    modifies buf
    ensures dl <= buf.Length && buf[..dl] == Padded(c, c.Header() + pci + data)
  {
    hide CanDl;
    var offset := c.A() + |pci|;
    CopyInto(buf, offset, data);
    dl := PadInto(c, buf, offset + |data|);
    if c.addressFormat != 0 {
      buf[0] := c.address;
    }
    CopyInto(buf, c.A(), pci);
    Assembled(c, pci, data, buf[..dl]);
  }

  /** CanTp_Prv_CreateTxFirstFrame */
  method CreateFirstFrame(c: TxConnection, sdu: bytes, buf: array<byte>) returns (dl: nat)
    requires c.Valid() && IsFirst(TxPci(c, |sdu|)) && buf.Length == MAX_NPDU
    modifies buf
    ensures dl <= buf.Length && buf[..dl] == FirstFrame(c, sdu)
  {
    var p := TxPci(c, |sdu|);
    var offset := c.A() + PciSize(p);
    dl := c.txDl;
    CopyInto(buf, offset, sdu[..dl - offset]);
    if c.addressFormat != 0 {
      buf[0] := c.address;
    }
    CopyInto(buf, c.A(), FirstPci(p, |sdu|));
    assert buf[..dl] == FirstFrame(c, sdu);
  }

  /** CanTp_Prv_CreateTxConsecutiveFrame: pads only a frame that is not full. */
  method CreateConsecutiveFrame(c: TxConnection, sn: nat, data: bytes, buf: array<byte>) returns (dl: nat)
    requires c.Valid() && sn < 16 && |data| <= c.Payload() && buf.Length == MAX_NPDU
    modifies buf
    ensures dl <= buf.Length && buf[..dl] == ConsecutiveFrame(c, sn, data)
  {
    hide CanDl;
    var offset := c.A() + 1;
    CopyInto(buf, offset, data);
    dl := c.txDl;
    if |data| < c.txDl - offset {
      dl := PadInto(c, buf, offset + |data|);
    }
    if c.addressFormat != 0 {
      buf[0] := c.address;
    }
    buf[c.A()] := 0x20 + sn;
    FullDl(c.txDl);
    Assembled(c, [0x20 + sn], data, buf[..dl]);
  }

  /** CanTp_Prv_CreateTxFlowControlFrame */
  method CreateFlowControlFrame(r: RxConnection, status: nat, bs: byte, buf: array<byte>) returns (dl: nat)
    requires r.Valid() && status < 16 && buf.Length == MAX_NPDU
    modifies buf
    ensures dl <= buf.Length && buf[..dl] == FlowControlFrame(r, status, bs)
  {
    var at := 0;
    dl := 3;
    if r.addressFormat != 0 {
      buf[0] := r.address;
      at := 1;
      dl := 4;
    }
    buf[at], buf[at + 1], buf[at + 2] := 0x30 + status, bs, r.stmin;
    if r.padding {
      CopyInto(buf, dl, Fill(DEFAULT_CAN_DL - dl, r.fill));
      dl := DEFAULT_CAN_DL;
    }
    assert buf[..dl] == FlowControlFrame(r, status, bs);
  }
}
