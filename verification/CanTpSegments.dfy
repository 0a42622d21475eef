/** The segmentation of an SDU: which bytes travel in which frame. Reference for sender and receiver. */
module CanTpSegments {
  import opened Bytes
  import opened CanTpConfig
  import opened CanTpFrames

  /** SDU bytes carried by the first frame and the first k consecutive frames. */
  function Offset(c: TxConnection, len: nat, k: nat): (n: nat)
    requires c.Valid() && IsFirst(TxPci(c, len))
    ensures 0 < n <= len
    decreases k
  {
    if k == 0 then FirstPayload(c, len) else Min(len, Offset(c, len, k - 1) + c.Payload())
  }

  /** An SDU has a frame with this index. */
  predicate HasFrame(c: TxConnection, len: nat, index: nat)
    requires c.Valid()
  {
    index == 0 || (IsFirst(TxPci(c, len)) && Offset(c, len, index - 1) < len)
  }

  /** The frame with this index: the single or first frame, then the consecutive frames in order. */
  function Frame(c: TxConnection, sdu: bytes, index: nat): bytes
    requires c.Valid() && HasFrame(c, |sdu|, index)
  {
    if index > 0 then
      ConsecutiveFrame(c, index % 16, Segment(c, sdu, index))
    else if IsSingle(TxPci(c, |sdu|)) then SingleFrame(c, sdu)
    else FirstFrame(c, sdu)
  }

  /** The SDU bytes in consecutive frame number index. */
  function Segment(c: TxConnection, sdu: bytes, index: nat): (s: bytes)
    requires c.Valid() && index > 0 && IsFirst(TxPci(c, |sdu|))
    ensures |s| == Min(|sdu| - Offset(c, |sdu|, index - 1), c.Payload())
  {
    sdu[Offset(c, |sdu|, index - 1)..Offset(c, |sdu|, index)]
  }

  lemma OffsetStep(c: TxConnection, len: nat, k: nat)
    requires c.Valid() && IsFirst(TxPci(c, len))
    ensures Offset(c, len, k + 1) == Min(len, Offset(c, len, k) + c.Payload())
  {
  }

  lemma {:induction false} OffsetMonotone(c: TxConnection, len: nat, j: nat, k: nat)
    requires c.Valid() && IsFirst(TxPci(c, len)) && j <= k
    ensures Offset(c, len, j) <= Offset(c, len, k)
    decreases k
  {
    if j < k { OffsetMonotone(c, len, j, k - 1); }
  }
}
