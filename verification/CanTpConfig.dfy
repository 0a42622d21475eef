/** Connection configuration, CAN FD length tables and segmentation arithmetic of CanTp. */
module CanTpConfig {
  import opened Bytes

  datatype Pci = SfCan | SfFd | FfCan | FfFd | Cf | Fc

  const DEFAULT_CAN_DL: nat := 8
  const MAX_NPDU: nat := 64
  const MAX_FF_DL: nat := 0xFFF
  const INVALID_DL: nat := 0xFF
  /** CANTP_MAXFDFFDL is 0xFFFFFFFF, but CanTp_Transmit casts the limit to uint16. */
  const MAX_FD_FF_DL: nat := 0xFFFF
  /** Free running tick counter width. */
  const TICKS: nat := 0x1_0000_0000

  predicate ValidDl(d: nat) {
    d == 8 || d == 12 || d == 16 || d == 20 || d == 24 || d == 32 || d == 48 || d == 64
  }

  /** CanTp_CanDlTable: smallest CAN_DL of at least eight bytes that holds n bytes. */
  function CanDl(n: nat): (d: nat)
    requires n <= MAX_NPDU
    ensures n <= d <= MAX_NPDU && ValidDl(d) && (ValidDl(n) ==> d == n)
  {
    if n <= 8 then 8 else if n <= 12 then 12 else if n <= 16 then 16 else if n <= 20 then 20
    else if n <= 24 then 24 else if n <= 32 then 32 else if n <= 48 then 48 else 64
  }

  lemma CanDlIsSmallest(n: nat, d: nat)
    requires n <= d <= MAX_NPDU && ValidDl(d)
    ensures CanDl(n) <= d
  {
  }

  /** Data length code of the driver for a frame of n bytes. */
  function ConvertToDlc(n: nat): nat {
    if n <= 8 then n else if n <= 12 then 9 else if n <= 16 then 10 else if n <= 20 then 11
    else if n <= 24 then 12 else if n <= 32 then 13 else if n <= 48 then 14 else 15
  }

  /** Length in bytes that the receiving driver reports for a data length code. */
  function ConvertCanDlc(dlc: nat): nat {
    match dlc
    case 9 => 12
    case 10 => 16
    case 11 => 20
    case 12 => 24
    case 13 => 32
    case 14 => 48
    case 15 => 64
    case _ => dlc
  }

  /** What the bus does to a frame: short lengths are exact, longer ones grow to a CAN FD length. */
  ghost predicate OnWire(sent: bytes, got: bytes) {
    |got| == ConvertCanDlc(ConvertToDlc(|sent|)) && sent <= got
  }

  /** A frame of a full CAN_DL arrives exactly as it was sent. */
  lemma FullOnWire(sent: bytes, got: bytes)
    requires ValidDl(|sent|)
    ensures OnWire(sent, got) <==> got == sent
  {
  }

  function AddressSize(format: nat): nat
    requires format <= 4
  {
    if format == 0 || format == 4 then 0 else 1
  }

  function PciSize(p: Pci): nat {
    match p
    case SfCan => 1
    case SfFd => 2
    case FfCan => 2
    case FfFd => 6
    case Cf => 1
    case Fc => 3
  }

  predicate IsFirst(p: Pci) {
    p.FfCan? || p.FfFd?
  }

  predicate IsSingle(p: Pci) {
    p.SfCan? || p.SfFd?
  }

  /** One transmit N-SDU connection. */
  datatype TxConnection = TxConnection(
    txDl: nat, addressFormat: nat, address: byte, padding: bool, fill: byte, functional: bool,
    cancelDisabled: bool, strict: bool, asTicks: nat, bsTicks: nat, csTicks: nat, ticksPerMs: nat)
  {
    ghost predicate Valid() {
      ValidDl(txDl) && addressFormat <= 3
    }

    function A(): nat
      requires addressFormat <= 3
    {
      AddressSize(addressFormat)
    }

    function Header(): bytes {
      if addressFormat != 0 then [address] else []
    }

    /** SDU bytes carried by a full consecutive frame. */
    function Payload(): (n: nat)
      requires Valid()
      ensures 6 <= n <= 63
    {
      txDl - 1 - A()
    }
  }

  /** One receive N-SDU connection. */
  datatype RxConnection = RxConnection(
    addressFormat: nat, address: byte, padding: bool, fill: byte, functional: bool, strict: bool,
    stmin: byte, bsMax: byte, fcWaitMax: nat, arTicks: nat, brTicks: nat, crTicks: nat)
  {
    ghost predicate Valid() {
      addressFormat <= 3
    }

    function A(): nat
      requires addressFormat <= 3
    {
      AddressSize(addressFormat)
    }

    function Header(): bytes {
      if addressFormat != 0 then [address] else []
    }
  }

  /** The two ends of one connection agree on addressing and padding. */
  ghost predicate Matched(c: TxConnection, r: RxConnection) {
    c.Valid() && r.Valid() && c.A() == r.A() && c.padding == r.padding
  }

  /** CanTp_GetElapsedValue: difference of two readings of a wrapping counter. */
  function Elapsed(now: nat, start: nat): nat {
    (now - start) % TICKS
  }

  /** Consecutive frames that carry rem bytes, counted frame by frame. */
  function BlockCfs(rem: nat, payload: nat): (n: nat)
    requires payload > 0
    ensures n == 0 <==> rem == 0
    ensures n <= rem
    decreases rem
  {
    if rem == 0 then 0 else 1 + BlockCfs(if rem <= payload then 0 else rem - payload, payload)
  }

  lemma BlockCfsStep(rem: nat, payload: nat)
    requires payload > 0 && rem > 0
    ensures BlockCfs(rem, payload) == 1 + BlockCfs(if rem <= payload then 0 else rem - payload, payload)
  {
  }

  /** CanTp_Prv_GetTxBlockCfs and CanTp_Prv_GetRxBlockCfs compute that count by one division. */
  method GetBlockCfs(rem: nat, payload: nat) returns (n: nat)
    requires payload > 0
    ensures n == BlockCfs(rem, payload)
  {
    n := if rem % payload == 0 then rem / payload else rem / payload + 1;
    BlockCfsFormula(rem, payload);
  }

  lemma {:induction false} BlockCfsFormula(rem: nat, payload: nat)
    requires payload > 0
    ensures BlockCfs(rem, payload) == if rem % payload == 0 then rem / payload else rem / payload + 1
    decreases rem
  {
    if rem == 0 {
    } else if rem < payload {
      assert rem / payload == 0 && rem % payload == rem;
    } else {
      DivMinus(rem, payload);
      BlockCfsFormula(rem - payload, payload);
    }
  }

  lemma DivMinus(x: nat, d: nat)
    requires d > 0 && x >= d
    ensures (x - d) / d == x / d - 1 && (x - d) % d == x % d
  {
    var q, m := x / d, x % d;
    var q', m' := (x - d) / d, (x - d) % d;
    assert x == q * d + m && x - d == q' * d + m';
    assert (q - 1 - q') * d == m' - m;
    Multiple(q - 1 - q', d);
  }

  /** A non-zero multiple of d is at least d in magnitude. */
  lemma Multiple(k: int, d: int)
    requires d > 0
    ensures k >= 1 ==> k * d >= d
    ensures k <= -1 ==> k * d <= -d
  {
  }
}
