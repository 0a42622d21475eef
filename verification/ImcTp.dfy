/** The segmentation protocol between processors: first frames carry the length, every frame a sequence number. */
module ImcTp {
  import opened Bytes

  const UINT16: nat := 0x1_0000
  const UINT8: nat := 0x100

  // ----- Sender -----------------------------------------------------------------------------------------

  /** Transmit info of one channel with the upper layer's SDU. outstanding and oks are history. */
  datatype TxInfo = TxInfo(rem: nat, sequence: byte, pending: byte, sdu: bytes, cursor: nat, outstanding: nat, oks: nat)

  /** rbdImcTp_Transmit: the length is cut to 16 bits; a transfer in progress is overwritten. */
  function Transmit(s: TxInfo, sdu: bytes): TxInfo {
    s.(sequence := 0, rem := |sdu| % UINT16, sdu := sdu, cursor := 0)
  }

  /** rbdImcTp_CancelTransmit */
  function Cancel(s: TxInfo): (TxInfo, Result) {
    if s.rem == 0 then (s, NotOk) else (s.(rem := 0), Ok)
  }

  /** Control bytes of the next frame. */
  function Control(s: TxInfo): bytes
    requires s.rem < UINT16
  {
    if s.sequence == 0 then [0, s.rem / 256, s.rem % 256] else [0x20 + s.sequence % 16]
  }

  /** SDU bytes in the next frame of at most max bytes. */
  function Count(max: nat, s: TxInfo): nat
    requires max >= 4
  {
    Min(s.rem, if s.sequence == 0 then max - 3 else max - 1)
  }

  ghost predicate TxOk(s: TxInfo) {
    s.rem < UINT16 && s.cursor + s.rem <= |s.sdu|
  }

  function NextFrame(max: nat, s: TxInfo): bytes
    requires max >= 4 && TxOk(s)
  {
    Control(s) + s.sdu[s.cursor..s.cursor + Count(max, s)]
  }

  function Advance(max: nat, s: TxInfo): (r: TxInfo)
    requires max >= 4
  {
    s.(sequence := (s.sequence + 1) % UINT8, rem := s.rem - Count(max, s), pending := (s.pending + 1) % UINT8,
       cursor := s.cursor + Count(max, s), outstanding := s.outstanding + 1)
  }

  /** rbdImc_TpCyclic on one channel; ready when a buffer is available and the upper layer copies. */
  function Cyclic(max: nat, s: TxInfo, ready: bool): (TxInfo, Option<bytes>)
    requires max >= 4 && TxOk(s)
  {
    if s.rem > 0 && ready then (Advance(max, s), Some(NextFrame(max, s))) else (s, None)
  }

  /** rbdImc_TpTxConfirmation */
  function TxConfirmation(s: TxInfo): TxInfo {
    var s1 := s.(pending := if s.pending > 0 then s.pending - 1 else 0,
                 outstanding := if s.outstanding > 0 then s.outstanding - 1 else 0);
    if s1.pending == 0 && s1.rem == 0 then s1.(oks := s1.oks + 1) else s1
  }

  // ----- Receiver ---------------------------------------------------------------------------------------

  /** Calls into the upper layer. */
  datatype Call = Started(total: nat) | Refused | Copied(data: bytes) | CopyFailed | Failed | Done

  /** Receive info of one channel, and the upper layer: its calls and the bytes copied since the last start. */
  datatype RxInfo = RxInfo(rem: nat, active: bool, sequence: byte, calls: seq<Call>, copied: bytes, delivered: seq<bytes>)

  datatype RxEnv = RxEnv(startOk: bool, copyOk: bool)

  function Log(r: RxInfo, c: Call): RxInfo {
    r.(calls := r.calls + [c])
  }

  /** rbdImc_TpReportRxError */
  function ReportError(r: RxInfo): RxInfo {
    if r.active then Log(r, Failed).(active := false) else r
  }

  function RxFirstFrame(r: RxInfo, msg: bytes, env: RxEnv): RxInfo
    requires |msg| >= 3
  {
    var total: nat, data := msg[1] as nat * 256 + msg[2], msg[3..];
    if |data| > total then ReportError(r)
    else if !env.startOk then Log(r, Refused).(active := false)
    else if !env.copyOk then Log(Log(r, Started(total)), CopyFailed).(active := false, copied := [])
    else Log(Log(r, Started(total)), Copied(data)).(rem := total - |data|, sequence := 1, active := true, copied := data)
  }

  /** The sequence number and the length are checked, the active flag is not. */
  function RxConsecutiveFrame(r: RxInfo, msg: bytes, env: RxEnv): RxInfo
    requires |msg| >= 1
  {
    var data := msg[1..];
    if msg[0] % 16 != r.sequence % 16 || |data| > r.rem then ReportError(r)
    else if !env.copyOk then ReportError(Log(r, CopyFailed))
    else Log(r, Copied(data)).(rem := r.rem - |data|, sequence := (r.sequence + 1) % UINT8, copied := r.copied + data)
  }

  /** rbdImc_TpRxIndication for a frame of this channel. */
  function RxIndication(r: RxInfo, msg: bytes, env: RxEnv): RxInfo {
    if |msg| < 1 || (msg[0] == 0 && |msg| < 3) then ReportError(r)
    else
      var r1 := if msg[0] == 0 then RxFirstFrame(r, msg, env) else RxConsecutiveFrame(r, msg, env);
      if r1.rem == 0 && r1.active then
        Log(r1, Done).(active := false, sequence := 0, delivered := r1.delivered + [r1.copied])
      else r1
  }

  // ----- Round trip -------------------------------------------------------------------------------------

  /** All frames of the transfer in progress. */
  function Frames(max: nat, s: TxInfo): seq<bytes>
    requires max >= 4 && TxOk(s)
    decreases s.rem
  {
    if s.rem == 0 then [] else [NextFrame(max, s)] + Frames(max, Advance(max, s))
  }

  /** The frames arrive in order at a receiver whose upper layer accepts them. */
  function Feed(r: RxInfo, frames: seq<bytes>): RxInfo
    decreases |frames|
  {
    if frames == [] then r else Feed(RxIndication(r, frames[0], RxEnv(true, true)), frames[1..])
  }

  /** SDU bytes that fit before the sequence number wraps to zero. */
  function Left(max: nat, sequence: nat): nat
    requires max >= 4 && sequence <= UINT8
    decreases UINT8 - sequence
  {
    if sequence == UINT8 then 0 else (if sequence == 0 then max - 3 else max - 1) + Left(max, sequence + 1)
  }

  /** 256 frames: the largest message whose sequence numbers do not wrap. */
  function Capacity(max: nat): nat
    requires max >= 4
  {
    Left(max, 0)
  }

  lemma {:induction false} LeftFormula(max: nat, sequence: nat)
    requires max >= 4 && 1 <= sequence <= UINT8
    ensures Left(max, sequence) == (UINT8 - sequence) * (max - 1)
    decreases UINT8 - sequence
  {
    if sequence < UINT8 {
      LeftFormula(max, sequence + 1);
      assert (UINT8 - sequence) * (max - 1) == (UINT8 - sequence - 1) * (max - 1) + (max - 1);
    }
  }

  lemma CapacityFormula(max: nat)
    requires max >= 4
    ensures Capacity(max) == max - 3 + 255 * (max - 1)
  {
    LeftFormula(max, 1);
  }

  /** Bytes behind the last wrap of the sequence number; a frame with sequence zero starts all over. */
  function TailLen(max: nat, rem: nat): (n: nat)
    requires max >= 4
    ensures n <= rem && (rem <= Capacity(max) ==> n == rem) && (rem > Capacity(max) ==> n < rem)
    decreases rem
  {
    if rem <= Capacity(max) then rem else TailLen(max, rem - Capacity(max))
  }

  /** Sender and receiver in the middle of a transfer. */
  ghost predicate InStep(s: TxInfo, r: RxInfo)
    requires TxOk(s)
  {
    s.sequence != 0 && s.rem > 0 ==>
      && r.active && r.rem == s.rem && r.sequence == s.sequence && |r.copied| <= s.cursor
      && r.copied == s.sdu[s.cursor - |r.copied|..s.cursor]
  }

  /** What will be delivered: all that is copied so far and the rest, unless the sequence number wraps first. */
  ghost function Outcome(max: nat, s: TxInfo, copied: bytes): bytes
    requires max >= 4 && TxOk(s) && s.cursor + s.rem == |s.sdu|
  {
    if s.rem > Left(max, s.sequence) then s.sdu[|s.sdu| - TailLen(max, s.rem - Left(max, s.sequence))..]
    else if s.sequence == 0 then s.sdu[s.cursor..]
    else copied + s.sdu[s.cursor..]
  }

  lemma FirstReaction(max: nat, s: TxInfo, r: RxInfo)
    requires max >= 4 && TxOk(s) && s.rem > 0 && s.sequence == 0
    ensures var data, r' := s.sdu[s.cursor..s.cursor + Count(max, s)], RxIndication(r, NextFrame(max, s), RxEnv(true, true));
            if |data| == s.rem then r'.delivered == r.delivered + [data]
            else r'.delivered == r.delivered && r'.active && r'.rem == s.rem - |data| && r'.sequence == 1 && r'.copied == data
  {
    var f, data := NextFrame(max, s), s.sdu[s.cursor..s.cursor + Count(max, s)];
    assert f[0] == 0 && f[1] == s.rem / 256 && f[2] == s.rem % 256 && f[3..] == data;
  }

  lemma ConsecutiveReaction(max: nat, s: TxInfo, r: RxInfo)
    requires max >= 4 && TxOk(s) && s.rem > 0 && s.sequence != 0 && InStep(s, r)
    ensures var data, r' := s.sdu[s.cursor..s.cursor + Count(max, s)], RxIndication(r, NextFrame(max, s), RxEnv(true, true));
            if |data| == s.rem then r'.delivered == r.delivered + [r.copied + data]
            else r'.delivered == r.delivered && r'.active && r'.rem == s.rem - |data|
                 && r'.sequence == (s.sequence + 1) % UINT8 && r'.copied == r.copied + data
  {
    var f, data := NextFrame(max, s), s.sdu[s.cursor..s.cursor + Count(max, s)];
    assert f[0] == 0x20 + s.sequence % 16 && f[1..] == data;
  }

  /** One frame keeps both ends in step and the outcome unchanged, or completes the transfer. */
  lemma FrameTaken(max: nat, s: TxInfo, r: RxInfo)
    requires max >= 4 && TxOk(s) && s.rem > 0 && InStep(s, r) && s.cursor + s.rem == |s.sdu|
    ensures var s', r' := Advance(max, s), RxIndication(r, NextFrame(max, s), RxEnv(true, true));
            && TxOk(s') && InStep(s', r') && s'.cursor + s'.rem == |s.sdu|
            && (if s'.rem > 0 then r'.delivered == r.delivered && Outcome(max, s', r'.copied) == Outcome(max, s, r.copied)
                else r'.delivered == r.delivered + [Outcome(max, s, r.copied)])
  {
    hide RxIndication, NextFrame, TailLen, Outcome, Left;
    var s', data := Advance(max, s), s.sdu[s.cursor..s.cursor + Count(max, s)];
    OutcomeKept(max, s, r.copied);
    if s.sequence == 0 {
      FirstReaction(max, s, r);
    } else {
      ConsecutiveReaction(max, s, r);
      assert r.copied + data == s.sdu[s.cursor - |r.copied|..s'.cursor];
    }
  }

  /** The outcome after the next frame, seen from before it. */
  lemma OutcomeKept(max: nat, s: TxInfo, copied: bytes)
    requires max >= 4 && TxOk(s) && s.rem > 0 && s.cursor + s.rem == |s.sdu|
    ensures var s', data := Advance(max, s), s.sdu[s.cursor..s.cursor + Count(max, s)];
            var copied' := if s.sequence == 0 then data else copied + data;
            if s'.rem > 0 then TxOk(s') && Outcome(max, s', copied') == Outcome(max, s, copied)
            else Outcome(max, s, copied) == copied'
  {
    hide TailLen, Left;
    var s', data := Advance(max, s), s.sdu[s.cursor..s.cursor + Count(max, s)];
    OutcomeStep(max, s, s'.rem);
    assert data + s.sdu[s'.cursor..] == s.sdu[s.cursor..];
    assert (copied + data) + s.sdu[s'.cursor..] == copied + s.sdu[s.cursor..];
    assert s'.rem > 0 && s'.sequence == 0 ==> s.sdu[s'.cursor..] == s.sdu[|s.sdu| - s'.rem..];
  }

  lemma LeftStep(max: nat, sequence: byte)
    requires max >= 4
    ensures Left(max, sequence) == (if sequence == 0 then max - 3 else max - 1) + (if sequence == 255 then 0 else Left(max, sequence + 1))
  {
  }

  /** The wrap hands over to the next round of sequence numbers. */
  lemma OutcomeStep(max: nat, s: TxInfo, rem': nat)
    requires max >= 4 && s.rem == rem' + Count(max, s)
    ensures rem' == 0 ==> s.rem <= Left(max, s.sequence)
    ensures rem' > 0 && s.sequence < 255 ==> s.rem - Left(max, s.sequence) == rem' - Left(max, s.sequence + 1)
    ensures rem' > 0 && s.sequence == 255 ==> s.rem - Left(max, 255) == rem'
    ensures TailLen(max, rem') == if rem' > Left(max, 0) then TailLen(max, rem' - Left(max, 0)) else rem'
  {
    hide Left;
    LeftStep(max, s.sequence);
  }

  lemma {:induction false} FedDelivers(max: nat, s: TxInfo, r: RxInfo)
    requires max >= 4 && TxOk(s) && s.rem > 0 && InStep(s, r) && s.cursor + s.rem == |s.sdu|
    ensures Feed(r, Frames(max, s)).delivered == r.delivered + [Outcome(max, s, r.copied)]
    decreases s.rem
  {
    hide RxIndication, NextFrame, Outcome, InStep;
    FrameTaken(max, s, r);
    var s', r' := Advance(max, s), RxIndication(r, NextFrame(max, s), RxEnv(true, true));
    var rest := Frames(max, s');
    assert Frames(max, s)[1..] == rest;
    if s'.rem > 0 { FedDelivers(max, s', r'); }
  }

  /** Bytes behind those to be sent do not matter. */
  lemma {:induction false} FramesOfPrefix(max: nat, s: TxInfo)
    requires max >= 4 && TxOk(s)
    ensures var s' := s.(sdu := s.sdu[..s.cursor + s.rem]); TxOk(s') && Frames(max, s') == Frames(max, s)
    decreases s.rem
  {
    hide NextFrame, Advance;
    if s.rem > 0 {
      NextOfPrefix(max, s);
      FramesOfPrefix(max, Advance(max, s));
    }
  }

  lemma NextOfPrefix(max: nat, s: TxInfo)
    requires max >= 4 && TxOk(s) && s.rem > 0
    ensures var s', next := s.(sdu := s.sdu[..s.cursor + s.rem]), Advance(max, s);
            && TxOk(s') && TxOk(next) && NextFrame(max, s') == NextFrame(max, s)
            && Advance(max, s') == next.(sdu := next.sdu[..next.cursor + next.rem]) && next.rem < s.rem
  {
    var n := s.cursor + Count(max, s);
    assert s.sdu[..s.cursor + s.rem][s.cursor..n] == s.sdu[s.cursor..n];
  }

  /** The part of a message that the sender takes: its length is cut to 16 bits. */
  function Cut(sdu: bytes): bytes {
    sdu[..|sdu| % UINT16]
  }

  /** What the receiver delivers for this message. */
  function Outcomes(max: nat, sdu: bytes): seq<bytes>
    requires max >= 4
  {
    if Cut(sdu) == [] then [] else [Cut(sdu)[|Cut(sdu)| - TailLen(max, |Cut(sdu)|)..]]
  }

  /**
   * Round trip for every message: its frames, fed in order to a receiver in any state, deliver the part of it that
   * fits 16 bits of length and lies behind the last wrap of the sequence number, and nothing if that is empty; it is
   * the message itself exactly when it is not empty, shorter than 65536 bytes and needs at most 256 frames.
   */
  lemma RoundTripExactly(max: nat, s: TxInfo, sdu: bytes, r: RxInfo)
    requires max >= 4
    ensures TxOk(Transmit(s, sdu))
    ensures var d := Feed(r, Frames(max, Transmit(s, sdu))).delivered;
            && d == r.delivered + Outcomes(max, sdu)
            && (d == r.delivered + [sdu] <==> 0 < |sdu| < UINT16 && |sdu| <= max - 3 + 255 * (max - 1))
  {
    hide Left, Frames, Feed;
    var p := Cut(sdu);
    var x, y := Transmit(s, sdu), Transmit(s, p);
    assert |p| == |sdu| % UINT16 && y == x.(sdu := x.sdu[..x.cursor + x.rem]);
    FramesOfPrefix(max, x);
    CapacityFormula(max);
    if p == [] {
      NoFrames(max, x, r);
    } else {
      FedDelivers(max, y, r);
    }
    SameOutcome(r.delivered, Outcomes(max, sdu), sdu);
    WholeExactly(max, sdu);
  }

  lemma WholeExactly(max: nat, sdu: bytes)
    requires max >= 4
    ensures Outcomes(max, sdu) == [sdu] <==> 0 < |sdu| < UINT16 && |sdu| <= Capacity(max)
  {
    hide Left;
    var p := Cut(sdu);
    if p != [] {
      var tail := p[|p| - TailLen(max, |p|)..];
      assert |tail| == TailLen(max, |p|) && (|p| == |sdu| ==> p == sdu);
      if |tail| == |p| { assert tail == p; }
      assert Outcomes(max, sdu)[0] == tail;
    }
  }

  lemma NoFrames(max: nat, s: TxInfo, r: RxInfo)
    requires max >= 4 && TxOk(s) && s.rem == 0
    ensures Feed(r, Frames(max, s)) == r
  {
  }

  lemma SameOutcome(d: seq<bytes>, outcomes: seq<bytes>, sdu: bytes)
    requires |outcomes| <= 1
    ensures d + outcomes == d + [sdu] <==> outcomes == [sdu]
  {
    if d + outcomes == d + [sdu] {
      assert (d + outcomes)[|d|..] == outcomes && (d + [sdu])[|d|..] == [sdu];
    }
  }
}
