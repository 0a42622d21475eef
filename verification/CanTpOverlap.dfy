/**
 * Why a request must wait until the transfer before it is over at both ends: a grant for a cancelled SDU that is
 * still in flight opens a block of the next one, and the two ends then wait for each other even though both fake
 * their confirmations.
 */
module CanTpOverlap {
  import opened Bytes
  import opened CanTpConfig
  import opened CanTpFrames
  import opened CanTpSegments
  import opened CanTpNet
  import opened CanTpLockstep
  import opened CanTpUnitBlocks
  import opened CanTpPersistent
  import opened CanTpStall
  import opened CanTpCompletes
  import T = CanTpSender
  import R = CanTpReceiver

  /** The sender can leave a transfer by itself: cancellation is allowed, or N_As or N_Bs can run out. */
  predicate CanAbandon(c: TxConnection) {
    !Persistent(c)
  }

  /** Fakes at both ends, and a receiver that does not insist on one frame per block. */
  ghost predicate Overlapping(z: Setup, sdu: bytes) {
    Segmented(z, sdu) && z.fakeAtSender && z.fakeAtReceiver && CanAbandon(z.c) && z.r.bsMax != 1
  }

  /** The receiver has a grant of one frame on the bus; the sender starts the same SDU over. */
  ghost predicate Restarted(z: Setup, sdu: bytes, n: Net)
    requires Segmented(z, sdu)
  {
    && n.requests == [sdu, sdu] && n.fc == [FlowControlFrame(z.r, R.CTS, 1)] && n.txPending && n.rxPending
    && n.data == [Packet(FirstFrame(z.c, sdu), Tag(1, 0))]
    && n.tx.sub == T.WaitConfirmation && n.tx.locked && n.tx.stmin.None? && IsFirst(n.tx.pci) && n.tx.initialTicks == 0
    && n.rx.sub == R.WaitFcConfirmation && n.rx.locked && n.rx.flow == R.CTS
  }

  /** A step freed the sender and touched nothing else that the receiver or the bus can see. */
  ghost predicate GaveUp(z: Setup, n: Net, n': Net)
    requires z.Valid()
  {
    && Reachable(z, n') && n'.tx.sub == T.Idle && !n'.tx.locked
    && n'.requests == n.requests && n'.rx == n.rx && n'.data == n.data && n'.fc == n.fc && n'.rxPending == n.rxPending
  }

  lemma FreedByCancel(z: Setup, n: Net)
    requires z.Valid() && Reachable(z, n) && Inv(z, n) && !z.c.cancelDisabled && n.tx.sub == T.WaitConfirmation
    ensures GaveUp(z, n, Step(z, n, ECancel))
  {
    hide Inv, Reachable, T.Inv, R.Inv;
    SenderInv(z, n);
    ReachableStep(z, n, ECancel);
  }

  lemma FreedByTimeout(z: Setup, n: Net, ticks: nat)
    requires z.Valid() && Reachable(z, n) && Inv(z, n) && n.tx.sub in {T.WaitConfirmation, T.WaitFlowControl} && n.tx.initialTicks == 0
    requires ticks == (if n.tx.sub == T.WaitConfirmation then z.c.asTicks else z.c.bsTicks) + 1 < TICKS
    ensures GaveUp(z, n, Step(z, n, ETxMain(ticks, Rest(n.tx))))
  {
    hide Inv, Reachable, T.Main, T.Inv, R.Inv;
    SenderInv(z, n);
    TimesOut(z.c, n.tx);
    ReachableStep(z, n, ETxMain(ticks, Rest(n.tx)));
  }

  /** The sender is free again while the grant is on the bus. */
  lemma Abandon(z: Setup, sdu: bytes, n: Net) returns (n': Net)
    requires Multi(z, sdu) && CanAbandon(z.c) && Reachable(z, n) && Inv(z, n)
    requires n.requests == [sdu] && n.tx.sub == T.WaitConfirmation && n.tx.locked && IsFirst(n.tx.pci) && n.txPending
    requires n.tx.initialTicks == 0
    ensures Reachable(z, n') && Inv(z, n') && n'.tx.sub == T.Idle && !n'.tx.locked
    ensures n'.requests == n.requests && n'.rx == n.rx && n'.data == n.data && n'.fc == n.fc && n'.rxPending == n.rxPending
  {
    hide Inv, Reachable, Multi, T.Main, T.Inv, R.Inv, T.TxConfirmation, Accepts, TxPci;
    Parts(z, sdu);
    if !z.c.cancelDisabled {
      FreedByCancel(z, n);
      n' := Step(z, n, ECancel);
    } else if z.c.asTicks + 1 < TICKS {
      FreedByTimeout(z, n, z.c.asTicks + 1);
      n' := Step(z, n, ETxMain(z.c.asTicks + 1, Rest(n.tx)));
    } else {
      SenderInv(z, n);
      FirstConfirmed(z.c, n.tx);
      ReachableStep(z, n, ETxConfirm(0));
      var n1 := Step(z, n, ETxConfirm(0));
      ReachableStep(z, n1, ECancel);
      FreedByTimeout(z, n1, z.c.bsTicks + 1);
      n' := Step(z, n1, ETxMain(z.c.bsTicks + 1, Rest(n1.tx)));
    }
    ReachableStep(z, n', ECancel);
  }

  lemma TimesOut(c: TxConnection, tx: T.State)
    requires T.Inv(c, tx) && tx.sub in {T.WaitConfirmation, T.WaitFlowControl} && tx.initialTicks == 0
    requires (if tx.sub == T.WaitConfirmation then c.asTicks else c.bsTicks) + 1 < TICKS
    ensures var o := T.Main(c, tx, (if tx.sub == T.WaitConfirmation then c.asTicks else c.bsTicks) + 1, Rest(tx));
            o.s.sub == T.Idle && o.frame.None? && !o.s.locked
  {
    hide Accepts, TxPci, BlockCfs, Offset;
  }

  lemma Restart(z: Setup, sdu: bytes) returns (n: Net)
    requires Overlapping(z, sdu)
    ensures Reachable(z, n) && Inv(z, n) && Restarted(z, sdu, n)
  {
    hide Inv, Multi, T.Main, T.Inv, R.Inv, FirstFrame, FlowControlFrame, Accepts, TxPci;
    Parts(z, sdu);
    var n1 := BringFirstAcross(z, sdu);
    var n2 := GrantsOne(z, sdu, n1);
    var n3 := Abandon(z, sdu, n2);
    var e := ERequest(0, Some(sdu));
    ReachableStep(z, n3, e);
    var n4 := Step(z, n3, e);
    assert n4.requests == [sdu, sdu];
    FirstSent(z.c, n3.tx, sdu);
    var m := ETxMain(0, Rest(n4.tx));
    ReachableStep(z, n4, m);
    n := Step(z, n4, m);
    assert n.data == [Packet(FirstFrame(z.c, sdu), Tag(1, 0))];
    ReachableStep(z, n, ECancel);
  }

  /** The receiver has taken up the new SDU and granted all of it; both grants are on the bus. */
  ghost predicate Regranted(z: Setup, sdu: bytes, n: Net)
    requires Segmented(z, sdu)
  {
    && n.requests == [sdu, sdu] && n.data == [] && n.txPending && !n.rxPending && n.seen == Tag(1, 0)
    && n.fc == [FlowControlFrame(z.r, R.CTS, 1), FlowControlFrame(z.r, R.CTS, z.r.bsMax)]
    && n.tx.sub == T.WaitConfirmation && n.tx.locked && n.tx.stmin.None? && IsFirst(n.tx.pci) && n.tx.initialTicks == 0
    && Awaiting(z, sdu, n.rx)
  }

  ghost predicate Awaiting(z: Setup, sdu: bytes, rx: R.State)
    requires Segmented(z, sdu)
  {
    && rx.sub == R.WaitConsecutive && rx.blockCfs > 1 && rx.rem == |sdu| - FirstPayload(z.c, |sdu|)
    && rx.rxDl == z.c.txDl && rx.initialTicks == 0 && rx.cfs == 0
  }

  /** A receiver that just took a first frame grants everything when the buffer suffices. */
  lemma GrantsAll(z: Setup, sdu: bytes, rx: R.State)
    requires Overlapping(z, sdu) && R.Inv(z.r, rx)
    requires rx.sub == R.SendFlowControl && rx.flow == R.WAIT && rx.bsOpen && rx.fcWait == 0 && !rx.locked
    requires rx.rem == |sdu| - FirstPayload(z.c, |sdu|) && rx.rxDl == z.c.txDl && rx.initialTicks == 0 && rx.cfs == 0
    ensures var o := R.Main(z.r, rx, 0, R.MainEnv(Some(rx.rem), true));
            && o.frame == Some(FlowControlFrame(z.r, R.CTS, z.r.bsMax))
            && Awaiting(z, sdu, R.TxConfirmation(o.s, 0))
  {
    hide FlowControlFrame, TxPci, Accepts;
    BlockCfsStep(rx.rem, z.c.Payload());
    BlockCfsStep(rx.rem - z.c.Payload(), z.c.Payload());
  }

  /** The receiver's own confirmation leaves it waiting for data. */
  lemma Freed(z: Setup, n: Net)
    requires Inv(z, n) && n.rx.sub == R.WaitFcConfirmation && n.rx.locked && n.rx.flow == R.CTS
    ensures var rx := R.TxConfirmation(n.rx, 0); R.Inv(z.r, rx) && !rx.locked
  {
    R.ConfirmKeeps(z.r, n.rx, 0);
  }

  lemma Regrant(z: Setup, sdu: bytes, n: Net) returns (n': Net)
    requires Overlapping(z, sdu) && Reachable(z, n) && Inv(z, n) && Restarted(z, sdu, n)
    ensures Reachable(z, n') && Inv(z, n') && Regranted(z, sdu, n')
  {
    hide Inv, Multi, R.Main, T.Inv, R.Inv, FirstFrame, FlowControlFrame, Accepts, TxPci, OnWire, R.RxIndication,
         R.TxConfirmation, FirstPayload, Awaiting;
    Parts(z, sdu);
    Freed(z, n);
    var rx0 := R.TxConfirmation(n.rx, 0);
    FirstReceived(z, rx0, sdu);
    FirstCount(z, rx0, sdu);
    var got: R.CanFrame := FirstFrame(z.c, sdu);
    var d := EData(0, got, R.RxEnv(R.Grant(MAX_NPDU), true));
    ReachableStep(z, n, d);
    var n1 := Step(z, n, d);
    var m := ERxMain(0, R.MainEnv(Some(n1.rx.rem), true));
    ReachableStep(z, n1, m);
    SenderInv(z, n1);
    GrantsAll(z, sdu, n1.rx);
    var n2 := Step(z, n1, m);
    ReachableStep(z, n2, ERxConfirm(0));
    n' := Step(z, n2, ERxConfirm(0));
    assert n'.fc == [FlowControlFrame(z.r, R.CTS, 1), FlowControlFrame(z.r, R.CTS, z.r.bsMax)];
    ReachableStep(z, n', m);
  }

  lemma FirstCount(z: Setup, rx0: R.State, sdu: bytes)
    requires Segmented(z, sdu) && R.Inv(z.r, rx0) && |FirstFrame(z.c, sdu)| <= MAX_NPDU
    ensures R.RxIndication(z.r, rx0, 0, FirstFrame(z.c, sdu), R.RxEnv(R.Grant(MAX_NPDU), true)).cfs == 0
  {
    var f := FirstFrame(z.c, sdu);
    assert |f| == z.c.txDl;
    FullOnWire(f, f);
    FirstFrameDecodes(z.c, z.r, sdu, f);
    hide FirstFrame, FirstPayload, FirstCheck, OnWire, TxPci, Accepts;
  }

  /** The stale grant lets one frame through; the real one comes while the sender is not listening. */
  lemma OneFrameOnly(z: Setup, sdu: bytes, n: Net) returns (n': Net, frame: R.CanFrame)
    requires Overlapping(z, sdu) && Reachable(z, n) && Inv(z, n) && Regranted(z, sdu, n)
    ensures Reachable(z, n') && Inv(z, n') && n'.rx == n.rx && n'.requests == n.requests && n'.seen == n.seen
    ensures n'.tx.sub == T.WaitFlowControl && n'.fc == [] && !n'.rxPending
    ensures |n'.data| == 1 && n'.data[0].frame == frame && OnWire(frame, frame)
  {
    hide Inv, Multi, T.Main, T.Inv, R.Inv, FirstFrame, FlowControlFrame, Accepts, TxPci, OnWire, T.TxConfirmation,
         FirstPayload, Awaiting, T.FlowControl, FrameType, Reachable;
    Parts(z, sdu);
    SenderHolds2(z, sdu, n);
    FirstConfirmed(z.c, n.tx);
    T.ConfirmationKeeps(z.c, n.tx, 0);
    var got := ShortOnWire(z.r, 1);
    frame := OneFrameSent(z, sdu, T.TxConfirmation(z.c, n.tx, 0), got);
    ReachableStep(z, n, EFlow(0, got));
    var n1 := Step(z, n, EFlow(0, got));
    var late := ShortOnWire(z.r, z.r.bsMax);
    ReachableStep(z, n1, EFlow(0, late));
    var n2 := Step(z, n1, EFlow(0, late));
    NotListening(z, sdu, n.tx, got);
    assert n2.tx == n1.tx by { Ignored(z.c, n1.tx, late); }
    ReachableStep(z, n2, ETxMain(0, Rest(n2.tx)));
    var n3 := Step(z, n2, ETxMain(0, Rest(n2.tx)));
    assert n3.data == [Packet(frame, Tag(1, n2.sent))];
    ReachableStep(z, n3, ETxConfirm(0));
    n' := Step(z, n3, ETxConfirm(0));
    ReachableStep(z, n', ETxConfirm(0));
  }

  lemma SenderHolds2(z: Setup, sdu: bytes, n: Net)
    requires Inv(z, n) && n.requests == [sdu, sdu] && n.tx.sub != T.Idle
    ensures T.Inv(z.c, n.tx) && n.tx.sdu == sdu && n.tx.len == |sdu|
  {
  }

  lemma NotListening(z: Setup, sdu: bytes, tx: T.State, got: bytes)
    requires z.Valid() && T.Inv(z.c, tx) && tx.sub == T.WaitConfirmation && tx.locked && IsFirst(tx.pci)
    requires OnWire(FlowControlFrame(z.r, R.CTS, 1), got)
    ensures T.FlowControl(z.c, T.TxConfirmation(z.c, tx, 0), 0, got).sub == T.SendConsecutive
  {
    FirstConfirmed(z.c, tx);
    FlowControlFrameDecodes(z.c, z.r, R.CTS, 1, got);
    hide T.TxConfirmation, FlowControlFrame, OnWire, FlowControlCheck, BlockCfs;
  }

  /** The receiver takes the frame and goes on waiting inside its longer block. */
  lemma GoesOnWaiting(z: Setup, sdu: bytes, rx: R.State, got: R.CanFrame)
    requires Overlapping(z, sdu) && R.Inv(z.r, rx) && Awaiting(z, sdu, rx) && rx.sn == 1
    requires HasFrame(z.c, |sdu|, 1) && OnWire(Frame(z.c, sdu, 1), got)
    ensures R.RxIndication(z.r, rx, 0, got, R.RxEnv(R.Reject, true)).sub == R.WaitConsecutive
  {
    ConsecutiveFrameDecodes(z.c, z.r, 1, rx.rem, Segment(z.c, sdu, 1), got);
    TakesOn(z, rx, got);
  }

  lemma TakesOn(z: Setup, rx: R.State, got: R.CanFrame)
    requires z.Valid() && !z.r.functional && R.Inv(z.r, rx) && rx.sub == R.WaitConsecutive && rx.blockCfs > 1
    requires rx.rxDl == z.c.txDl && rx.rem > z.c.Payload() && rx.initialTicks == 0
    requires FrameType(z.r.A(), got) == CONSECUTIVE
    requires ConsecutiveCheck(z.r, rx.rxDl, rx.rem, got).ok && ConsecutiveCheck(z.r, rx.rxDl, rx.rem, got).low == rx.sn
    ensures R.RxIndication(z.r, rx, 0, got, R.RxEnv(R.Reject, true)).sub == R.WaitConsecutive
  {
    hide ValidDl, CanDl, ConsecutiveCheck, BlockCfs, FrameType;
    R.ConsecutiveTakes(z.r, rx.rxDl, rx.rem, got);
  }

  lemma NextIsFirstConsecutive(z: Setup, sdu: bytes, n: Net)
    requires Overlapping(z, sdu) && Inv(z, n) && n.requests == [sdu, sdu] && |n.data| == 1 && n.seen == Tag(1, 0)
    requires Awaiting(z, sdu, n.rx)
    ensures R.Inv(z.r, n.rx) && n.rx.sn == 1
    ensures HasFrame(z.c, |sdu|, 1) && n.data[0].frame == Frame(z.c, sdu, 1)
  {
    hide T.Inv, OriginOk, SenderOk, Frame, HasFrame, Accepts, TxPci;
    assert PacketOk(z.c, n.requests, n.data[0]);
  }

  /** Two requests that overlap on the bus can leave both ends waiting for each other with nothing in flight. */
  lemma OverlapStalls(z: Setup, sdu: bytes) returns (n: Net)
    requires Overlapping(z, sdu)
    ensures Reachable(z, n) && n.requests == [sdu, sdu] && Stalled(n)
  {
    hide CanAbandon, Inv, Multi, R.RxIndication, R.Inv, Restarted, Awaiting, OnWire, Frame, HasFrame;
    Parts(z, sdu);
    var n1 := Restart(z, sdu);
    var n2 := Regrant(z, sdu, n1);
    var n3, frame := OneFrameOnly(z, sdu, n2);
    NextIsFirstConsecutive(z, sdu, n3);
    GoesOnWaiting(z, sdu, n3.rx, frame);
    var d := EData(0, frame, R.RxEnv(R.Reject, true));
    ReachableStep(z, n3, d);
    n := Step(z, n3, d);
  }

  /** Every physical connection has an SDU that needs two consecutive frames. */
  lemma LongSdu(z: Setup) returns (sdu: bytes)
    requires z.Valid() && !z.c.functional && z.c.csTicks > 0
    ensures Segmented(z, sdu)
  {
    sdu := Fill(192, 0);
  }

  /** A functional sender never waits for flow control. */
  lemma FunctionalNeverWaits(z: Setup, n: Net)
    requires Inv(z, n) && z.c.functional
    ensures n.tx.sub != T.WaitFlowControl
  {
    hide R.Inv, DataOk, ReceiverOk, OriginOk, SenderOk, Chain;
  }

  /** Without a segmented SDU, or without time to ask for a buffer, there is nothing to wait for. */
  lemma NothingToWaitFor(z: Setup, events: seq<Event>)
    requires z.Valid() && (z.c.functional || z.c.csTicks == 0)
    ensures !Stalled(Run(z, events))
  {
    hide Inv, Step;
    if z.c.functional { FunctionalNeverWaits(z, Run(z, events)); } else { SilentRun(z, events); }
  }

  /** What makes a run stall. */
  predicate MayStall(z: Setup) {
    && !z.c.functional && z.c.csTicks > 0
    && (!(z.fakeAtSender && z.fakeAtReceiver) || (z.r.bsMax != 1 && CanAbandon(z.c)))
  }

  lemma SomeRunStalls(z: Setup) returns (n: Net)
    requires z.Valid() && MayStall(z)
    ensures Reachable(z, n) && Stalled(n)
  {
    hide CanAbandon, Stalled, Reachable;
    var sdu := LongSdu(z);
    if !z.fakeAtSender {
      n := StallsWithoutSenderFake(z, sdu);
    } else if !z.fakeAtReceiver {
      n := StallsWithoutReceiverFake(z, sdu);
    } else {
      n := OverlapStalls(z, sdu);
    }
  }

  lemma NoRunStalls(z: Setup, events: seq<Event>)
    requires z.Valid() && !MayStall(z)
    ensures !Stalled(Run(z, events))
  {
    if z.c.functional || z.c.csTicks == 0 {
      NothingToWaitFor(z, events);
    } else if z.r.bsMax == 1 {
      UnitBlocksNeverStall(z, events);
    } else {
      PersistentNeverStalls(z, events);
    }
  }

  /**
   * The exact condition over all runs: a connection has a run that stalls if and only if it is physical, can send at all,
   * and the fake Tx confirmation is missing at either end, or the receiver's maximum block size is not one and the
   * sender can abandon a transfer; and then already with an upper layer that always offers exactly the rest of the SDU.
   */
  lemma StallsExactly(z: Setup)
    requires z.Valid()
    ensures (exists events :: Stalled(Run(z, events)))
       <==> && !z.c.functional && z.c.csTicks > 0
            && (!(z.fakeAtSender && z.fakeAtReceiver) || (z.r.bsMax != 1 && CanAbandon(z.c)))
    ensures (exists n :: Reachable(z, n) && Stalled(n)) <==> exists events :: Stalled(Run(z, events))
  {
    hide CanAbandon, Stalled, Reachable;
    if MayStall(z) {
      var n := SomeRunStalls(z);
      HonestIsARun(z, n);
    } else {
      forall events ensures !Stalled(Run(z, events)) { NoRunStalls(z, events); }
      forall n | Reachable(z, n) ensures !Stalled(n) { HonestIsARun(z, n); }
    }
  }
}
