/** One CanTp receive channel: reception, flow control and the block grants made to the sender. */
module CanTpReceiver {
  import opened Bytes
  import opened CanTpConfig
  import opened CanTpFrames

  /** CANTP_RX_RECEPTION_REQUEST_ACCEPTED exists only inside one call and is not a resting state. */
  datatype SubState = Idle | SendFlowControl | WaitFcConfirmation | WaitConsecutive

  const CTS: nat := 0
  const WAIT: nat := 1
  const OVERFLOW: nat := 2

  /**
   * The channel record, its lock table entry, and the upper layer seen through PduR: the bytes copied
   * since start of reception, the SDUs indicated with E_OK and the number of E_NOT_OK indications.
   * cfs counts the consecutive frames accepted since the first frame; the source does not store it.
   */
  datatype State = State(
    sub: SubState, locked: bool, rxDl: nat, flow: nat, sn: nat, bs: byte, fcWait: nat, blockCfs: nat,
    rem: nat, len: nat, initialTicks: nat, bsOpen: bool,
    copied: bytes, cfs: nat, delivered: seq<bytes>, failures: nat)

  function Init(): State {
    State(Idle, false, 0, CTS, 0, 0, 0, 0, 0, 0, 0, true, [], 0, [], 0)
  }

  /** A frame as the driver delivers it. */
  type CanFrame = f: bytes | |f| <= MAX_NPDU

  /** Answer of PduR_CanTpStartOfReception. */
  datatype Start = Grant(size: nat) | TooLong | Reject

  /** Upper layer answers while a data frame is processed. */
  datatype RxEnv = RxEnv(start: Start, copyOk: bool)

  /** Answers during one main function call: the free buffer, if the query succeeds, and the lower layer. */
  datatype MainEnv = MainEnv(free: Option<nat>, lowerOk: bool)

  datatype Output = Output(s: State, frame: Option<bytes>)

  function Fail(s: State): State {
    s.(failures := s.failures + 1)
  }

  function Abort(s: State): State {
    Fail(s).(sub := Idle)
  }

  /** CanTp_Prv_GetConnectionAcceptance: a reception in progress gives way to the new one. */
  function Restart(s: State): State {
    if s.sub == Idle then s else Fail(s)
  }

  /** CanTp_Prv_ProcessRxSingleFrame behind the length check. */
  function RxSingle(r: RxConnection, s: State, now: nat, f: bytes, env: RxEnv): State
    requires r.Valid() && |f| <= MAX_NPDU
  {
    var x := SingleCheck(r, f);
    if !x.ok then LengthError(s)
    else
      var s1 := Restart(s).(len := x.sduLength, rem := x.sduLength, rxDl := |f|, initialTicks := now, sub := Idle);
      match env.start
      case Grant(size) =>
        if size >= x.sduLength && env.copyOk then
          var data := f[x.offset..x.offset + x.sduLength];
          s1.(copied := data, delivered := s1.delivered + [data])
        else Fail(s1).(copied := [])
      case TooLong => Fail(s1)
      case Reject => s1
  }

  /** CanTp_Prv_ProcessRxFirstFrame behind the length check. */
  function RxFirst(r: RxConnection, s: State, now: nat, f: bytes, env: RxEnv): State
    requires r.Valid() && |f| <= MAX_NPDU
  {
    FirstLeavesRemainder(r, f);
    var x := FirstCheck(r, f);
    if !x.ok then LengthError(s)
    else
      var s1 := Restart(s).(len := x.sduLength, rxDl := |f|, initialTicks := now, sub := Idle, flow := WAIT);
      StartReception(s1, f[x.offset..], x.sduLength - (|f| - x.offset), env)
  }

  /** The upper layer's answer to the first frame of a reception. */
  function StartReception(s: State, first: bytes, remaining: nat, env: RxEnv): State {
    match env.start
    case Grant(size) =>
      if size >= |first| && env.copyOk then
        s.(sub := SendFlowControl, rem := remaining, bs := 0, bsOpen := true, fcWait := 0, sn := 1, copied := first, cfs := 0)
      else Fail(s).(copied := [])
    case TooLong => s.(sub := SendFlowControl, flow := OVERFLOW, bs := 0)
    case Reject => s
  }

  /** CanTp_Prv_ProcessRxConsecutiveFrame behind the length check; outside WaitConsecutive it does nothing. */
  function RxConsecutive(r: RxConnection, s: State, now: nat, f: bytes, env: RxEnv): State
    requires Inv(r, s) && |f| <= MAX_NPDU
  {
    if s.sub != WaitConsecutive then s
    else
      var x := ConsecutiveCheck(r, s.rxDl, s.rem, f);
      if !x.ok then LengthError(s)
      else if s.blockCfs == 0 then s
      else if r.strict && Elapsed(now, s.initialTicks) > r.crTicks then Abort(s)
      else if x.low != s.sn then Abort(s)
      else if !env.copyOk then Abort(s.(initialTicks := now))
      else
        var n := Min(s.rem, x.canDl - x.offset);
        TakeSegment(s, now, f[x.offset..x.offset + n])
  }

  /** The channel after the upper layer copied one segment. */
  function TakeSegment(s: State, now: nat, data: bytes): State
    requires |data| <= s.rem
  {
    var s1 := PrepareFcTransmit(
                s.(initialTicks := now, sn := (s.sn + 1) % 16, rem := s.rem - |data|, blockCfs := Dec32(s.blockCfs),
                   copied := s.copied + data, cfs := s.cfs + 1));
    if s1.rem == 0 then s1.(delivered := s1.delivered + [s1.copied], sub := Idle) else s1
  }

  /** CanTp_Prv_PrepareFcTransmit: the block is used up, ask for the next one. */
  function PrepareFcTransmit(s: State): State {
    if s.blockCfs == 0 then s.(fcWait := 0, flow := WAIT, sub := SendFlowControl) else s
  }

  /** CanTp_Prv_LengthError */
  function LengthError(s: State): State {
    if s.sub == WaitConsecutive then Abort(s) else s
  }

  /** CanTp_RxIndication for a frame of this receive connection. */
  function RxIndication(r: RxConnection, s: State, now: nat, f: bytes, env: RxEnv): State
    requires Inv(r, s) && |f| <= MAX_NPDU
  {
    var t := FrameType(r.A(), f);
    if t == SINGLE then RxSingle(r, s, now, f, env)
    else if r.functional then s
    else if t == FIRST then RxFirst(r, s, now, f, env)
    else if t == CONSECUTIVE then RxConsecutive(r, s, now, f, env)
    else s
  }

  /** CanTp_Prv_SetRxBlockInfo: block size from the free buffer, kept once clear-to-send was granted. */
  function SetRxBlockInfo(r: RxConnection, s: State, free: nat): State
    requires r.Valid() && ValidDl(s.rxDl)
  {
    var payload := s.rxDl - r.A() - 1;
    var bs: byte :=
      if !s.bsOpen then s.bs
      else if free >= s.rem then r.bsMax
      else
        var fit: byte := Low8(free / payload);
        if r.bsMax != 0 && fit > r.bsMax then r.bsMax else fit;
    if (bs == 0 && free < s.rem) || (bs != 0 && free < bs as nat * payload && free < s.rem) then
      s.(flow := WAIT, bs := bs)
    else
      s.(flow := CTS, bs := bs, bsOpen := false, blockCfs := if bs != 0 then bs else BlockCfs(s.rem, payload))
  }

  /** CanTp_Prv_FcTransmit and the frame it hands to CanIf. */
  function FcTransmit(r: RxConnection, s: State, now: nat, ready: bool, lowerOk: bool): Output
    requires s.flow < 16
  {
    if !ready || s.sub != SendFlowControl then Output(s, None)
    else
      var s1 := s.(initialTicks := now, sub := WaitFcConfirmation);
      if lowerOk then Output(s1.(locked := true), Some(FlowControlFrame(r, s.flow, s.bs)))
      else Output(Abort(s1).(locked := false), None)
  }

  /** The part of CanTp_Prv_RxSendFlowControlFrame that decides between clear-to-send and wait. */
  function Negotiate(r: RxConnection, s: State, free: Option<nat>): State
    requires r.Valid() && ValidDl(s.rxDl)
  {
    match free
    case None => Abort(s)
    case Some(n) => if s.flow != CTS then SetRxBlockInfo(r, s, n) else s
  }

  /** CanTp_Prv_RxSendFlowControlFrame */
  function MainSendFlowControl(r: RxConnection, s: State, now: nat, env: MainEnv): Output
    requires r.Valid() && s.flow < 16 && ValidDl(s.rxDl)
  {
    if s.locked then Output(s, None)
    else
      var s1 := s.(blockCfs := 0);
      if s.flow == OVERFLOW then FcTransmit(r, s1, now, true, env.lowerOk)
      else
        var s2 := Negotiate(r, s1, env.free);
        var ready := env.free.Some? && (s2.flow == CTS || s.flow > WAIT);
        SendDecision(r, s2, now, Elapsed(now, s.initialTicks) >= r.brTicks, ready, env.lowerOk)
  }

  /** Sends the decision; a wait frame goes out at once and then each time N_Br expires, up to the maximum. */
  function SendDecision(r: RxConnection, s: State, now: nat, expired: bool, ready: bool, lowerOk: bool): Output
    requires s.flow < 16
  {
    if s.flow == WAIT && (expired || s.fcWait == 0) then
      if s.fcWait < r.fcWaitMax then
        FcTransmit(r, s.(fcWait := s.fcWait + 1, initialTicks := now), now, true, lowerOk)
      else FcTransmit(r, Abort(s), now, ready, lowerOk)
    else FcTransmit(r, s, now, ready, lowerOk)
  }

  /** CanTp_MainFunction on this channel. */
  function Main(r: RxConnection, s: State, now: nat, env: MainEnv): Output
    requires Inv(r, s)
  {
    match s.sub
    case Idle => Output(s, None)
    case SendFlowControl => MainSendFlowControl(r, s, now, env)
    case WaitFcConfirmation =>
      Output(if Elapsed(now, s.initialTicks) > r.arTicks then Abort(s).(locked := false) else s, None)
    case WaitConsecutive =>
      Output(if Elapsed(now, s.initialTicks) > r.crTicks then Abort(s) else s, None)
  }

  /** CanTp_TxConfirmation for a flow control frame of this channel. */
  function TxConfirmation(s: State, now: nat): State {
    if !s.locked || s.sub != WaitFcConfirmation then s
    else
      var s1 := s.(initialTicks := now, locked := false);
      if s.flow == CTS then s1.(sub := WaitConsecutive)
      else if s.flow == WAIT then s1.(sub := if s.rem > 0 then SendFlowControl else Idle)
      else if s.flow == OVERFLOW then Abort(s1)
      else s1
  }

  /** CanTp_CancelReceive; the payload is a uint8 difference. */
  function Cancel(r: RxConnection, s: State): (State, Result)
    requires r.Valid()
  {
    if s.sub == Idle || s.rem <= (s.rxDl - r.A() - 1) % 256 then (s, NotOk)
    else (Abort(s).(locked := if s.sub == WaitFcConfirmation then false else s.locked), Ok)
  }

  ghost predicate Inv(r: RxConnection, s: State) {
    && r.Valid() && s.flow <= OVERFLOW && s.sn < 16
    && (s.sub != Idle ==> ValidDl(s.rxDl))
    && (s.sub == SendFlowControl ==> s.flow != CTS)
    && (s.sub == WaitConsecutive ==> s.flow == CTS && !s.locked)
    && (s.sub != Idle && s.flow != OVERFLOW ==> 0 < s.rem && s.rem + |s.copied| == s.len)
    && (s.sub != Idle && s.flow == CTS ==> Granted(r, s))
  }

  /** The channel waits for the confirmation of its flow control frame. */
  predicate Awaiting(s: State) {
    s.locked && s.sub == WaitFcConfirmation
  }

  /** Its entry in the confirmation table is set although it waits for no confirmation. */
  predicate Blocked(s: State) {
    s.locked && (s.sub == Idle || s.sub == SendFlowControl)
  }

  /** A block is open; without a block size it covers the whole remainder. */
  ghost predicate Granted(r: RxConnection, s: State)
    requires r.Valid() && ValidDl(s.rxDl)
  {
    && s.blockCfs > 0 && !s.bsOpen
    && if s.bs != 0 then s.blockCfs <= s.bs else s.blockCfs == BlockCfs(s.rem, s.rxDl - r.A() - 1)
  }

  datatype Event =
    | EFrame(now: nat, frame: CanFrame, env: RxEnv)
    | EMain(now: nat, menv: MainEnv)
    | EConfirm(now: nat)
    | ECancel

  function Step(r: RxConnection, s: State, e: Event): State
    requires Inv(r, s)
  {
    match e
    case EFrame(now, f, env) => RxIndication(r, s, now, f, env)
    case EMain(now, env) => Main(r, s, now, env).s
    case EConfirm(now) => TxConfirmation(s, now)
    case ECancel => Cancel(r, s).0
  }

  /** Every call keeps the channel consistent, whatever bytes arrive and whatever the other layers answer. */
  lemma StepKeeps(r: RxConnection, s: State, e: Event)
    ensures Inv(r, s) ==> Inv(r, Step(r, s, e))
  {
    if Inv(r, s) {
      match e
      case EFrame(now, f, env) => FrameKeeps(r, s, now, f, env);
      case EMain(now, env) => MainKeeps(r, s, now, env);
      case EConfirm(now) =>
      case ECancel =>
    }
  }

  lemma LockedMeans(r: RxConnection, s: State)
    ensures Inv(r, s) && s.locked ==> Awaiting(s) || Blocked(s)
  {
  }

  lemma OnlyLocked(s: State, now: nat)
    ensures !s.locked ==> TxConfirmation(s, now) == s
  {
  }

  lemma ConfirmKeeps(r: RxConnection, s: State, now: nat)
    ensures Inv(r, s) ==> Inv(r, TxConfirmation(s, now))
  {
  }

  lemma CancelKeeps(r: RxConnection, s: State)
    ensures Inv(r, s) ==> Inv(r, Cancel(r, s).0)
  {
  }

  lemma ValidConnection(r: RxConnection, s: State)
    ensures Inv(r, s) ==> r.Valid()
  {
  }

  lemma GrantFlow(r: RxConnection, s: State, free: nat)
    requires r.Valid() && ValidDl(s.rxDl)
    ensures SetRxBlockInfo(r, s, free).flow in {CTS, WAIT}
  {
  }

  lemma FrameKeeps(r: RxConnection, s: State, now: nat, f: CanFrame, env: RxEnv)
    ensures Inv(r, s) ==> Inv(r, RxIndication(r, s, now, f, env))
  {
    if Inv(r, s) {
      var t := FrameType(r.A(), f);
      if t == SINGLE {
        assert RxSingle(r, s, now, f, env).sub == Idle || RxSingle(r, s, now, f, env) == s;
      } else if t == FIRST {
        FirstKeeps(r, s, now, f, env);
      } else if t == CONSECUTIVE && s.sub == WaitConsecutive {
        ConsecutiveKeeps(r, s, now, f, env);
      }
    }
  }

  lemma StartKeeps(r: RxConnection, s: State, first: bytes, remaining: nat, env: RxEnv)
    requires Inv(r, s) && s.sub == Idle && s.flow == WAIT && ValidDl(s.rxDl) && 0 < remaining && remaining + |first| == s.len
    ensures Inv(r, StartReception(s, first, remaining, env))
  {
    hide ValidDl, BlockCfs;
  }

  lemma FirstKeeps(r: RxConnection, s: State, now: nat, f: CanFrame, env: RxEnv)
    requires Inv(r, s)
    ensures Inv(r, RxFirst(r, s, now, f, env))
  {
    hide FirstCheck, ValidDl, BlockCfs, StartReception;
    FirstLeavesRemainder(r, f);
    var x := FirstCheck(r, f);
    if x.ok {
      var s1 := Restart(s).(len := x.sduLength, rxDl := |f|, initialTicks := now, sub := Idle, flow := WAIT);
      StartKeeps(r, s1, f[x.offset..], x.sduLength - (|f| - x.offset), env);
    }
  }

  /** A first frame delivers nothing; it opens a reception with its own bytes, or refuses one. */
  lemma FirstEffect(r: RxConnection, s: State, now: nat, f: CanFrame, env: RxEnv)
    requires r.Valid() && FirstCheck(r, f).ok
    ensures var s', x := RxFirst(r, s, now, f, env), FirstCheck(r, f);
            && s'.delivered == s.delivered
            && (|| s'.sub == Idle
                || (s'.sub == SendFlowControl && s'.flow == OVERFLOW)
                || (s'.sub == SendFlowControl && s'.flow == WAIT && s'.len == x.sduLength && s'.rxDl == |f|
                    && s'.rem == x.sduLength - (|f| - x.offset) && s'.sn == 1 && s'.cfs == 0 && s'.copied == f[x.offset..]))
  {
    hide FirstCheck, ValidDl, StartReception;
    FirstLeavesRemainder(r, f);
    var x := FirstCheck(r, f);
    var s1 := Restart(s).(len := x.sduLength, rxDl := |f|, initialTicks := now, sub := Idle, flow := WAIT);
    StartEffect(s1, f[x.offset..], x.sduLength - (|f| - x.offset), env);
  }

  lemma StartEffect(s: State, first: bytes, remaining: nat, env: RxEnv)
    requires s.sub == Idle && s.flow == WAIT
    ensures var s' := StartReception(s, first, remaining, env);
            && s'.delivered == s.delivered && s'.len == s.len && s'.rxDl == s.rxDl && s'.locked == s.locked
            && (|| s'.sub == Idle
                || (s'.sub == SendFlowControl && s'.flow == OVERFLOW)
                || (s'.sub == SendFlowControl && s'.flow == WAIT && s'.rem == remaining
                    && s'.sn == 1 && s'.cfs == 0 && s'.copied == first))
  {
  }

  lemma ConsecutiveKeeps(r: RxConnection, s: State, now: nat, f: CanFrame, env: RxEnv)
    requires Inv(r, s) && s.sub == WaitConsecutive
    ensures Inv(r, RxConsecutive(r, s, now, f, env))
  {
    hide ValidDl, CanDl, TakeSegment, BlockCfs;
    var x := ConsecutiveCheck(r, s.rxDl, s.rem, f);
    ConsecutiveTakes(r, s.rxDl, s.rem, f);
    if x.ok {
      TakeSegmentKeeps(r, s, now, f[x.offset..x.offset + Min(s.rem, x.canDl - x.offset)]);
    }
  }

  /** A consecutive frame that passes the check supplies a full segment or all that remains. */
  lemma ConsecutiveTakes(r: RxConnection, rxDl: nat, rem: nat, f: CanFrame)
    requires r.Valid() && ValidDl(rxDl)
    ensures var x := ConsecutiveCheck(r, rxDl, rem, f);
            Min(rem, x.canDl - x.offset) == Min(rem, rxDl - r.A() - 1) && x.canDl >= x.offset
            && (x.ok ==> x.offset + Min(rem, x.canDl - x.offset) <= |f|)
  {
  }

  lemma TakeSegmentKeeps(r: RxConnection, s: State, now: nat, data: bytes)
    ensures Inv(r, s) && s.sub == WaitConsecutive && |data| == Min(s.rem, s.rxDl - r.A() - 1) ==> Inv(r, TakeSegment(s, now, data))
  {
  }

  /** An accepted first frame announces more than it carries. */
  lemma FirstLeavesRemainder(r: RxConnection, f: CanFrame)
    requires r.Valid()
    ensures var x := FirstCheck(r, f);
            x.ok ==> ValidDl(|f|) && x.offset < |f| && x.sduLength > |f| - x.offset
  {
  }

  lemma MainKeeps(r: RxConnection, s: State, now: nat, env: MainEnv)
    ensures Inv(r, s) ==> Inv(r, Main(r, s, now, env).s)
  {
    hide ValidDl, SetRxBlockInfo, BlockCfs, FlowControlFrame, SendDecision, FcTransmit;
    if Inv(r, s) && s.sub == SendFlowControl && !s.locked {
      if s.flow == OVERFLOW {
        FcTransmitFrame(r, s.(blockCfs := 0), now, true, env.lowerOk);
      } else {
        NegotiateKeeps(r, s.(blockCfs := 0), env.free);
        var s2 := Negotiate(r, s.(blockCfs := 0), env.free);
        DecisionFrame(r, s2, now, Elapsed(now, s.initialTicks) >= r.brTicks,
                      env.free.Some? && (s2.flow == CTS || s.flow > WAIT), env.lowerOk);
      }
    }
  }

  /** A main function call moves no data; it may close the reception, or open a block by SetRxBlockInfo. */
  lemma MainEffect(r: RxConnection, s: State, now: nat, env: MainEnv)
    ensures Inv(r, s) ==>
              var s' := Main(r, s, now, env).s;
              && s'.copied == s.copied && s'.delivered == s.delivered && s'.cfs == s.cfs && s'.sn == s.sn
              && s'.len == s.len && s'.rem == s.rem && s'.rxDl == s.rxDl
              && (s'.sub != Idle ==> s.sub != Idle && (s'.flow == OVERFLOW <==> s.flow == OVERFLOW))
              && (s'.sub != Idle && s'.flow == CTS ==> s' == s || Opened(r, s, env, s'))
  {
    hide ValidDl, SetRxBlockInfo, BlockCfs, FlowControlFrame, SendDecision, FcTransmit;
    if Inv(r, s) && s.sub == SendFlowControl && !s.locked {
      if s.flow == OVERFLOW {
        FcTransmitFrame(r, s.(blockCfs := 0), now, true, env.lowerOk);
      } else {
        if env.free.Some? { SetRxBlockInfoFrame(r, s.(blockCfs := 0), env.free.value); }
        var s2 := Negotiate(r, s.(blockCfs := 0), env.free);
        DecisionFrame(r, s2, now, Elapsed(now, s.initialTicks) >= r.brTicks,
                      env.free.Some? && (s2.flow == CTS || s.flow > WAIT), env.lowerOk);
      }
    }
  }

  lemma FcTransmitFrame(r: RxConnection, s: State, now: nat, ready: bool, lowerOk: bool)
    requires s.flow < 16
    ensures var s' := FcTransmit(r, s, now, ready, lowerOk).s;
            && s' == s.(initialTicks := s'.initialTicks, sub := s'.sub, locked := s'.locked, failures := s'.failures)
            && (s'.sub == Idle || s'.sub == s.sub || (s.sub == SendFlowControl && s'.sub == WaitFcConfirmation))
            && (s'.sub == SendFlowControl ==> !ready)
  {
  }

  lemma DecisionFrame(r: RxConnection, s: State, now: nat, expired: bool, ready: bool, lowerOk: bool)
    requires s.flow < 16
    ensures var s' := SendDecision(r, s, now, expired, ready, lowerOk).s;
            && s' == s.(initialTicks := s'.initialTicks, sub := s'.sub, locked := s'.locked, failures := s'.failures,
                        fcWait := s'.fcWait)
            && (s'.sub == Idle || s'.sub == s.sub || (s.sub == SendFlowControl && s'.sub == WaitFcConfirmation))
            && (s'.sub == SendFlowControl ==> !ready)
  {
    hide FcTransmit;
    FcTransmitFrame(r, s.(fcWait := s.fcWait + 1, initialTicks := now), now, true, lowerOk);
    FcTransmitFrame(r, Abort(s), now, ready, lowerOk);
    FcTransmitFrame(r, s, now, ready, lowerOk);
  }

  lemma SetRxBlockInfoFrame(r: RxConnection, s: State, free: nat)
    requires r.Valid() && ValidDl(s.rxDl)
    ensures var s' := SetRxBlockInfo(r, s, free);
            && s' == s.(flow := s'.flow, bs := s'.bs, bsOpen := s'.bsOpen, blockCfs := s'.blockCfs)
            && (s'.flow == WAIT || s'.flow == CTS)
  {
  }

  /** This call of SetRxBlockInfo granted the block that s' holds. */
  ghost predicate Opened(r: RxConnection, s: State, env: MainEnv, s': State)
    requires Inv(r, s)
  {
    && s.sub == SendFlowControl && env.free.Some?
    && var g := SetRxBlockInfo(r, s.(blockCfs := 0), env.free.value);
       g.flow == CTS && s'.blockCfs == g.blockCfs && s'.bs == g.bs
  }

  lemma NegotiateKeeps(r: RxConnection, s: State, free: Option<nat>)
    requires Inv(r, s) && s.sub == SendFlowControl && s.flow == WAIT
    ensures var s' := Negotiate(r, s, free);
            if free.None? then s' == Abort(s)
            else s'.sub == SendFlowControl && Inv(r, s'.(sub := WaitFcConfirmation))
  {
    hide BlockCfs;
  }
}
