/**
 * A receiver configured for blocks of one frame: with fake Tx confirmation at both ends no run stalls, whatever
 * requests overlap, are cancelled or time out, because each grant can be answered by one frame alone.
 */
module CanTpUnitBlocks {
  import opened Bytes
  import opened CanTpConfig
  import opened CanTpFrames
  import opened CanTpSegments
  import opened CanTpNet
  import opened CanTpLockstep
  import T = CanTpSender
  import R = CanTpReceiver

  /** The sender does not wait for the receiver: it is free, about to send, or left without a frame. */
  ghost predicate Unbound(tx: T.State) {
    tx.sub in {T.Idle, T.Accepted, T.SendConsecutive} || (tx.sub == T.WaitConfirmation && !tx.locked)
  }

  /** The receiver has granted a block and not yet got its frame. */
  ghost predicate Expecting(rx: R.State) {
    rx.sub in {R.WaitFcConfirmation, R.WaitConsecutive} && rx.flow == R.CTS
  }

  /** Whatever the receiver grants is one frame. */
  ghost predicate OneAtATime(rx: R.State) {
    rx.sub != R.Idle && rx.flow != R.OVERFLOW && !rx.bsOpen ==> rx.bs == 1
  }

  ghost predicate EndsInGrant(r: RxConnection, fc: seq<bytes>) {
    fc != [] && fc[|fc| - 1] == FlowControlFrame(r, R.CTS, 1)
  }

  /** A receiver that expects a frame has its grant on the bus, or a frame, or a sender that will move on by itself. */
  ghost predicate Answered(r: RxConnection, tx: T.State, rx: R.State, data: seq<Packet>, fc: seq<bytes>) {
    Expecting(rx) ==> EndsInGrant(r, fc) || data != [] || Unbound(tx)
  }

  ghost predicate Unit(z: Setup, n: Net) {
    && z.Valid() && z.fakeAtSender && z.fakeAtReceiver && z.r.bsMax == 1
    && PendingOk(n) && OneAtATime(n.rx) && Answered(z.r, n.tx, n.rx, n.data, n.fc)
  }

  // ----- The sender -------------------------------------------------------------------------------------

  lemma MainUnbound(c: TxConnection, tx: T.State, now: nat, env: T.Env)
    ensures T.Inv(c, tx) ==>
              var o := T.Main(c, tx, now, env);
              && (o.frame.Some? || (Unbound(tx) ==> Unbound(o.s)))
              && (o.s.locked ==> o.frame.Some? || tx.locked)
  {
    hide ValidDl, Accepts, TxPci, BlockCfs, Offset, T.CreateFrame;
  }

  lemma TxMainUnit(z: Setup, n: Net, now: nat, env: T.Env)
    ensures Inv(z, n) && Unit(z, n) ==> Unit(z, TxMain(z, n, now, env))
  {
    hide T.Inv, R.Inv, T.Main, DataOk, ReceiverOk, OriginOk, Matched, Chain, Unbound, Expecting, OneAtATime, EndsInGrant, SentOk;
    MainUnbound(z.c, n.tx, now, env);
    MainSends(z.c, n.tx, n.sent, now, env);
  }

  lemma ConfirmUnbound(c: TxConnection, tx: T.State, now: nat)
    ensures T.Inv(c, tx) ==>
              var tx' := T.TxConfirmation(c, tx, now); !tx'.locked && (Unbound(tx) ==> Unbound(tx'))
  {
    hide ValidDl, Accepts, TxPci, BlockCfs, Offset;
  }

  lemma SenderConfirmUnit(z: Setup, n: Net, now: nat)
    ensures Inv(z, n) && Unit(z, n) ==> Unit(z, SenderConfirm(z, n, now)) && !SenderConfirm(z, n, now).tx.locked
  {
    hide T.Inv, R.Inv, T.TxConfirmation, DataOk, ReceiverOk, OriginOk, SenderOk, Matched, Chain, Unbound, Expecting, OneAtATime,
         EndsInGrant;
    ConfirmUnbound(z.c, n.tx, now);
  }

  /** A grant that reaches a sender without a confirmation pending sets it free. */
  lemma GrantFrees(z: Setup, tx: T.State, now: nat, got: bytes)
    ensures z.Valid() && T.Inv(z.c, tx) && !tx.locked && OnWire(FlowControlFrame(z.r, R.CTS, 1), got) ==>
              FrameType(z.c.A(), got) == FLOW_CONTROL && Unbound(T.FlowControl(z.c, tx, now, got))
  {
    if z.Valid() && OnWire(FlowControlFrame(z.r, R.CTS, 1), got) { FlowControlFrameDecodes(z.c, z.r, R.CTS, 1, got); }
    hide ValidDl, Accepts, TxPci, BlockCfs, Offset, FlowControlCheck, OnWire, FrameType, FlowControlFrame;
  }

  lemma FlowUnbound(c: TxConnection, tx: T.State, now: nat, got: bytes)
    ensures T.Inv(c, tx) ==>
              var tx' := T.FlowControl(c, tx, now, got); tx'.locked == tx.locked && (Unbound(tx) ==> tx' == tx)
  {
    hide ValidDl, Accepts, TxPci, BlockCfs, Offset, FlowControlCheck;
  }

  lemma FlowUnit(z: Setup, n: Net, now: nat, got: R.CanFrame)
    ensures Inv(z, n) && Unit(z, n) && !n.tx.locked && n.fc != [] && OnWire(n.fc[0], got) ==>
              Unit(z, n.(tx := if FrameType(z.c.A(), got) == FLOW_CONTROL then T.FlowControl(z.c, n.tx, now, got) else n.tx,
                         fc := n.fc[1..]))
  {
    hide T.Inv, R.Inv, T.FlowControl, DataOk, ReceiverOk, OriginOk, SenderOk, Matched, Chain, Unbound, Expecting, OneAtATime,
         OnWire, FrameType, FlowControlFrame;
    FlowUnbound(z.c, n.tx, now, got);
    GrantFrees(z, n.tx, now, got);
  }

  lemma DeliverFlowUnit(z: Setup, n: Net, now: nat, got: R.CanFrame)
    ensures Inv(z, n) && Unit(z, n) && n.fc != [] && OnWire(n.fc[0], got) ==> Unit(z, DeliverFlow(z, n, now, got))
  {
    hide Inv, PendingOk, OneAtATime, Answered, OnWire, T.FlowControl, T.TxConfirmation, FrameType;
    SenderConfirmKeeps(z, n, now);
    SenderConfirmUnit(z, n, now);
    if z.Valid() { FlowUnit(z, SenderConfirm(z, n, now), now, got); }
  }

  lemma CancelUnit(z: Setup, n: Net)
    ensures Inv(z, n) && Unit(z, n) ==> Unit(z, n.(tx := T.Cancel(z.c, n.tx).0))
  {
    hide R.Inv, DataOk, ReceiverOk, OriginOk, SenderOk, Matched, Chain, Expecting, OneAtATime, EndsInGrant;
  }

  lemma RequestUnit(z: Setup, n: Net, now: nat, request: Option<bytes>)
    ensures Inv(z, n) && Unit(z, n) ==> Unit(z, Request(z, n, now, request))
  {
    hide R.Inv, DataOk, ReceiverOk, OriginOk, SenderOk, Matched, Chain, Expecting, OneAtATime, EndsInGrant;
  }

  // ----- The receiver -----------------------------------------------------------------------------------

  /** With a maximum of one the negotiated block size is one, or the sender is told to wait. */
  lemma UnitGrant(r: RxConnection, s: R.State, free: nat)
    requires r.Valid() && ValidDl(s.rxDl) && r.bsMax == 1 && (!s.bsOpen ==> s.bs == 1)
    ensures var s' := R.SetRxBlockInfo(r, s, free);
            && (s'.flow == R.CTS ==> s'.bs == 1) && (!s'.bsOpen ==> s'.bs == 1) && s'.flow in {R.CTS, R.WAIT}
  {
  }

  lemma MainGrants(r: RxConnection, s: R.State, now: nat, env: R.MainEnv)
    ensures R.Inv(r, s) && r.bsMax == 1 && OneAtATime(s) ==>
              var o := R.Main(r, s, now, env);
              && OneAtATime(o.s)
              && (o.s.sub == R.WaitFcConfirmation && s.sub != R.WaitFcConfirmation ==> o.frame.Some? && o.s.locked)
              && (o.s.sub == R.WaitFcConfirmation && s.sub == R.WaitFcConfirmation ==> o.s == s && o.frame.None?)
              && (Expecting(o.s) ==> (o.frame.None? && Expecting(s)) || o.frame == Some(FlowControlFrame(r, R.CTS, 1)))
  {
    hide ValidDl, FlowControlFrame, BlockCfs, R.SetRxBlockInfo;
    if R.Inv(r, s) && r.bsMax == 1 && OneAtATime(s) && s.sub == R.SendFlowControl && s.flow == R.WAIT && env.free.Some? {
      UnitGrant(r, s.(blockCfs := 0), env.free.value);
      R.SetRxBlockInfoFrame(r, s.(blockCfs := 0), env.free.value);
    }
  }

  lemma RxMainUnit(z: Setup, n: Net, now: nat, env: R.MainEnv)
    ensures Inv(z, n) && Unit(z, n) ==> Unit(z, RxMain(z, n, now, env))
  {
    hide T.Inv, R.Inv, R.Main, DataOk, ReceiverOk, OriginOk, SenderOk, Matched, Chain, Unbound, Expecting, OneAtATime, FlowControlFrame;
    MainGrants(z.r, n.rx, now, env);
  }

  lemma ReceiverConfirmUnit(z: Setup, n: Net, now: nat)
    ensures Inv(z, n) && Unit(z, n) ==>
              Unit(z, ReceiverConfirm(n, now)) && ReceiverConfirm(n, now).rx.sub != R.WaitFcConfirmation
  {
    hide T.Inv, DataOk, ReceiverOk, OriginOk, SenderOk, Matched, Chain, Unbound, EndsInGrant, ValidDl, BlockCfs;
  }

  lemma RxCancelUnit(z: Setup, n: Net)
    ensures Inv(z, n) && Unit(z, n) ==> Unit(z, n.(rx := R.Cancel(z.r, n.rx).0))
  {
    hide T.Inv, DataOk, ReceiverOk, OriginOk, SenderOk, Matched, Chain, Unbound, EndsInGrant, ValidDl, BlockCfs;
  }

  // ----- Data frames ------------------------------------------------------------------------------------

  /** The receiver does not go on waiting after any frame of the sender. */
  ghost predicate Settled(rx: R.State) {
    rx.sub in {R.Idle, R.SendFlowControl} && OneAtATime(rx)
  }

  /** A block of one is used up by any consecutive frame, or the reception fails. */
  lemma ConsecutiveSettles(r: RxConnection, rx: R.State, now: nat, got: R.CanFrame, env: R.RxEnv)
    requires R.Inv(r, rx) && OneAtATime(rx) && rx.sub != R.WaitFcConfirmation && !r.functional
    requires FrameType(r.A(), got) == CONSECUTIVE
    ensures Settled(R.RxIndication(r, rx, now, got, env))
  {
    hide ValidDl, CanDl, BlockCfs, FrameType, ConsecutiveCheck;
    if rx.sub == R.WaitConsecutive { R.ConsecutiveTakes(r, rx.rxDl, rx.rem, got); }
  }

  lemma FirstSettles(z: Setup, sdu: bytes, rx: R.State, now: nat, got: R.CanFrame, env: R.RxEnv)
    requires z.Valid() && R.Inv(z.r, rx) && Accepts(z.c, |sdu|) && IsFirst(TxPci(z.c, |sdu|))
    requires OnWire(FirstFrame(z.c, sdu), got)
    ensures Settled(R.RxIndication(z.r, rx, now, got, env))
  {
    hide OnWire, R.Inv, FirstCheck, FirstFrame, FirstPayload;
    NotFunctional(z, sdu);
    FirstFrameDecodes(z.c, z.r, sdu, got);
  }

  lemma FrameSettles(z: Setup, requests: seq<bytes>, p: Packet, rx: R.State, now: nat, got: R.CanFrame, env: R.RxEnv)
    requires z.Valid() && R.Inv(z.r, rx) && PacketOk(z.c, requests, p) && OnWire(p.frame, got)
    requires OneAtATime(rx) && rx.sub != R.WaitFcConfirmation
    ensures Settled(R.RxIndication(z.r, rx, now, got, env))
  {
    var sdu, i := requests[p.tag.msg], p.tag.index;
    if i > 0 {
      NotFunctional(z, sdu);
      ConsecutiveFrameDecodes(z.c, z.r, i % 16, |sdu| - Offset(z.c, |sdu|, i - 1), Segment(z.c, sdu, i), got);
      ConsecutiveSettles(z.r, rx, now, got, env);
    } else if IsSingle(TxPci(z.c, |sdu|)) {
      SingleEnds(z, sdu, rx, now, got, env);
    } else {
      FirstSettles(z, sdu, rx, now, got, env);
    }
  }

  lemma NotFunctional(z: Setup, sdu: bytes)
    ensures z.Valid() && Accepts(z.c, |sdu|) && IsFirst(TxPci(z.c, |sdu|)) ==> !z.r.functional
  {
  }

  lemma HandedUnit(z: Setup, n: Net, now: nat, got: R.CanFrame, env: R.RxEnv)
    requires Inv(z, n) && Unit(z, n) && n.data != [] && OnWire(n.data[0].frame, got) && n.rx.sub != R.WaitFcConfirmation
    ensures Unit(z, Handed(z, n, now, got, env))
  {
    hide T.Inv, R.Inv, ReceiverOk, OriginOk, SenderOk, Matched, Chain, Unbound, OneAtATime, EndsInGrant, OnWire, R.RxIndication, PacketOk;
    FrameSettles(z, n.requests, n.data[0], n.rx, now, got, env);
  }

  lemma DeliverDataUnit(z: Setup, n: Net, now: nat, got: R.CanFrame, env: R.RxEnv)
    requires Inv(z, n) && Unit(z, n) && n.data != [] && OnWire(n.data[0].frame, got)
    ensures Unit(z, DeliverData(z, n, now, got, env))
  {
    hide Inv, PendingOk, OneAtATime, Answered, OnWire;
    ReceiverConfirmKeeps(z, n, now);
    ReceiverConfirmUnit(z, n, now);
    HandedUnit(z, ReceiverConfirm(n, now), now, got, env);
  }

  // ----- Runs -------------------------------------------------------------------------------------------

  lemma StepUnit(z: Setup, n: Net, e: Event)
    requires Inv(z, n) && Unit(z, n)
    ensures Unit(z, Step(z, n, e))
  {
    hide Inv, Unit, OnWire;
    match e
    case ERequest(now, request) => RequestUnit(z, n, now, request);
    case ECancel => CancelUnit(z, n);
    case ETxMain(now, env) => TxMainUnit(z, n, now, env);
    case ETxConfirm(now) => SenderConfirmUnit(z, n, now);
    case EData(now, got, env) =>
      if n.data != [] && OnWire(n.data[0].frame, got) { DeliverDataUnit(z, n, now, got, env); }
    case ERxMain(now, env) => RxMainUnit(z, n, now, env);
    case ERxConfirm(now) => ReceiverConfirmUnit(z, n, now);
    case ERxCancel => RxCancelUnit(z, n);
    case EFlow(now, got) => DeliverFlowUnit(z, n, now, got);
  }

  lemma StartsUnit(z: Setup)
    requires z.Valid() && z.fakeAtSender && z.fakeAtReceiver && z.r.bsMax == 1
    ensures Unit(z, Init())
  {
  }

  lemma {:induction false} RunUnit(z: Setup, events: seq<Event>)
    requires z.Valid() && z.fakeAtSender && z.fakeAtReceiver && z.r.bsMax == 1
    ensures Unit(z, Run(z, events))
  {
    hide Inv, Unit, Step;
    if events == [] {
      StartsUnit(z);
    } else {
      RunUnit(z, events[..|events| - 1]);
      StepUnit(z, Run(z, events[..|events| - 1]), events[|events| - 1]);
    }
  }

  lemma UnitIsNotStalled(z: Setup, n: Net)
    requires Inv(z, n) && Unit(z, n)
    ensures !Stalled(n)
  {
    hide T.Inv, DataOk, ReceiverOk, OriginOk, SenderOk, Matched, Chain, OneAtATime, ValidDl, BlockCfs;
  }

  /** With blocks of one frame and fakes at both ends no run at all stalls. */
  lemma UnitBlocksNeverStall(z: Setup, events: seq<Event>)
    requires z.Valid() && z.fakeAtSender && z.fakeAtReceiver && z.r.bsMax == 1
    ensures !Stalled(Run(z, events))
  {
    hide Inv, Unit, Step;
    RunUnit(z, events);
    UnitIsNotStalled(z, Run(z, events));
  }
}
