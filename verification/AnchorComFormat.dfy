/** Layout of AnchorCom secure messages, and the cryptographic services as abstract functions. */
module AnchorComFormat {
  import opened Bytes

  const CHANID_LEN: nat := 1
  const PREFIX_LEN: nat := 2
  const HEADER_LEN: nat := 3
  const APPEND_LEN: nat := 4
  const CMAC_LEN: nat := 3
  const FRESH_LEN: nat := 8
  const AES_KEY_LEN: nat := 16

  /** Length preserving encryption keyed by freshness, its inverse, and a message authentication code. */
  datatype Crypto = Crypto(enc: (bytes, bytes) -> bytes, dec: (bytes, bytes) -> bytes, mac: bytes -> bytes) {
    ghost predicate Valid() {
      && (forall x, f :: |enc(x, f)| == |x|)
      && (forall x, f :: |dec(x, f)| == |x|)
      && (forall x, f :: |x| % AES_KEY_LEN == 0 ==> dec(enc(x, f), f) == x)
      && forall x :: |mac(x)| == CMAC_LEN
    }
  }

  /** rbdAnchorCom_Result_et of a synchronous call. */
  datatype Csm = CsmOk | CsmFail | CsmFatal

  /** memcpy into a buffer. */
  function Write(buf: bytes, at: nat, data: bytes): (r: bytes)
    requires at + |data| <= |buf|
    ensures |r| == |buf| && r[at..at + |data|] == data && r[..at] == buf[..at]
    ensures r[at + |data|..] == buf[at + |data|..]
  {
    buf[..at] + data + buf[at + |data|..]
  }

  /** Zero bytes that bring a payload to a multiple of the cipher's block. */
  function PadLen(n: nat): (k: nat)
    ensures k < AES_KEY_LEN && (n + k) % AES_KEY_LEN == 0
  {
    if n % AES_KEY_LEN != 0 then AES_KEY_LEN - n % AES_KEY_LEN else 0
  }

  /** Third header byte of an encrypted message: the encrypt flag is lost when no padding is needed. */
  function FlagByte(pad: nat): byte
    requires pad < AES_KEY_LEN
  {
    if pad != 0 then 0x80 + pad else 0
  }

  /** Bit by bit: the top bit says that there is padding, the low four bits how much, and the rest is zero. */
  lemma FlagBits(pad: nat)
    requires pad < AES_KEY_LEN
    ensures FlagByte(pad) / 0x80 == (if pad > 0 then 1 else 0) && FlagByte(pad) % 16 == pad && FlagByte(pad) / 16 % 8 == 0
  {
  }

  function Padded(p: bytes): bytes {
    p + Fill(PadLen(|p|), 0)
  }

  /** What travels between header and trailer. */
  function Body(k: Crypto, encrypt: bool, p: bytes, freshness: bytes): bytes {
    if encrypt then k.enc(Padded(p), freshness) else p
  }

  // ----- Channel identifiers --------------------------------------------------------------------------

  /** rbdAnchorComTp_GetChanId; the four parts occupy distinct bits. */
  function ChanId(canIdx: byte, broadcast: bool, ble: bool, fromMaster: bool): byte {
    canIdx % 16 + (if broadcast then 0x80 else 0) + (if ble then 0x40 else 0x10) + (if fromMaster then 0x20 else 0)
  }

  /** A message moved to another channel, direction or node never carries the same channel id. */
  lemma ChanIdSeparates(i: byte, b: bool, l: bool, m: bool, i': byte, b': bool, l': bool, m': bool)
    ensures ChanId(i, b, l, m) == ChanId(i', b', l', m') <==> i % 16 == i' % 16 && b == b' && l == l' && m == m'
  {
  }

  /** rbdAnchorComTp_GetTxChanId on the master: broadcasts use index zero. */
  function MasterTxChanId(anchor: byte, broadcast: bool, ble: bool): byte
    requires anchor < 255
  {
    ChanId(if broadcast then 0 else anchor + 1, broadcast, ble, true)
  }

  /** rbdAnchorComTp_GetRxChanId on a BLE node: the node's own index, also for broadcasts. */
  function BleRxChanId(canIdx: byte, broadcast: bool): byte {
    ChanId(canIdx, broadcast, true, true)
  }

  /** A BLE node agrees with the master on a broadcast exactly when its index has no low bits. */
  lemma BleBroadcastAgreesExactly(anchor: byte, canIdx: byte)
    requires anchor < 255
    ensures MasterTxChanId(anchor, true, true) == BleRxChanId(canIdx, true) <==> canIdx % 16 == 0
    ensures MasterTxChanId(anchor, false, true) == BleRxChanId(canIdx, false) <==> canIdx % 16 == (anchor + 1) % 16
  {
  }
}
