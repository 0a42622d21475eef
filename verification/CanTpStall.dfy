/**
 * The stall that the fake Tx confirmation prevents: without it at either end, a run exists in which both ends
 * wait for each other. With it at both ends there is none, so the condition is exact.
 */
module CanTpStall {
  import opened Bytes
  import opened CanTpConfig
  import opened CanTpFrames
  import opened CanTpSegments
  import opened CanTpNet
  import opened CanTpLockstep
  import opened CanTpOneConsecutive
  import T = CanTpSender
  import R = CanTpReceiver

  /** What the sender has not yet taken from the upper layer. */
  function Untaken(tx: T.State): nat {
    if tx.cursor <= |tx.sdu| then |tx.sdu| - tx.cursor else 0
  }

  /** The upper layer offers the rest of the SDU, no more and no less. */
  function Rest(tx: T.State): T.Env {
    T.Env(T.Available(Untaken(tx)), true, true)
  }

  ghost predicate Honest(n: Net, e: Event) {
    e.ETxMain? ==> e.txEnv.query == T.Available(Untaken(n.tx))
  }

  /** A run in which the upper layer always says exactly how many bytes are left. */
  ghost predicate HonestRun(z: Setup, events: seq<Event>)
    requires z.Valid()
  {
    events == [] || (HonestRun(z, events[..|events| - 1]) && Honest(Run(z, events[..|events| - 1]), events[|events| - 1]))
  }

  ghost predicate Reachable(z: Setup, n: Net)
    requires z.Valid()
  {
    exists events :: HonestRun(z, events) && Run(z, events) == n
  }

  lemma ReachableStep(z: Setup, n: Net, e: Event)
    requires z.Valid() && Reachable(z, n) && Honest(n, e)
    ensures Inv(z, n) && Reachable(z, Step(z, n, e))
  {
    hide Step, Inv;
    var events :| HonestRun(z, events) && Run(z, events) == n;
    var longer := events + [e];
    assert longer[..|longer| - 1] == events;
    assert HonestRun(z, longer) && Run(z, longer) == Step(z, n, e);
  }

  /** A physical connection, an SDU that needs consecutive frames, and time to ask for a buffer. */
  ghost predicate Multi(z: Setup, sdu: bytes) {
    z.Valid() && !z.c.functional && Accepts(z.c, |sdu|) && IsFirst(TxPci(z.c, |sdu|)) && z.c.csTicks > 0
  }

  /** At least two consecutive frames. */
  ghost predicate Segmented(z: Setup, sdu: bytes) {
    Multi(z, sdu) && |sdu| - FirstPayload(z.c, |sdu|) > z.c.Payload()
  }

  /** The first frame has been sent and received; neither end has seen a confirmation. */
  ghost predicate FirstAcross(z: Setup, sdu: bytes, n: Net)
    requires Multi(z, sdu)
  {
    && n.requests == [sdu] && n.data == [] && n.fc == [] && n.txPending && !n.rxPending && n.seen == Tag(0, 0)
    && n.tx.results == [] && n.tx.sub == T.WaitConfirmation && n.tx.locked && n.tx.stmin.None? && IsFirst(n.tx.pci)
    && n.tx.initialTicks == 0
    && n.rx.sub == R.SendFlowControl && n.rx.flow == R.WAIT && n.rx.bsOpen && n.rx.fcWait == 0 && !n.rx.locked
    && n.rx.rem == |sdu| - FirstPayload(z.c, |sdu|) && n.rx.rxDl == z.c.txDl && n.rx.initialTicks == 0
  }

  /** The request is accepted. */
  lemma Requested(z: Setup, sdu: bytes) returns (n: Net)
    requires Multi(z, sdu)
    ensures Reachable(z, n) && Inv(z, n) && n == Init().(tx := T.Transmit(z.c, T.Init(), 0, Some(sdu)).0, requests := [sdu])
  {
    hide Inv, Accepts, TxPci, FirstPayload;
    var e := ERequest(0, Some(sdu));
    assert Run(z, []) == Init();
    ReachableStep(z, Init(), e);
    n := Step(z, Init(), e);
    assert [] + [sdu] == [sdu];
    ReachableStep(z, n, e);
  }

  /** One main function call puts the first frame on the bus. */
  lemma FirstSent(c: TxConnection, s0: T.State, sdu: bytes)
    requires c.Valid() && Accepts(c, |sdu|) && IsFirst(TxPci(c, |sdu|)) && c.csTicks > 0
    requires s0.sub == T.Idle && !s0.locked
    ensures var s := T.Transmit(c, s0, 0, Some(sdu)).0;
            && T.Inv(c, s)
            && var o := T.Main(c, s, 0, Rest(s));
               && o.frame == Some(FirstFrame(c, sdu))
               && o.s.sub == T.WaitConfirmation && o.s.locked && o.s.stmin.None? && IsFirst(o.s.pci)
               && o.s.initialTicks == 0 && o.s.results == s0.results
  {
  }

  /** A receiver opens a reception when the first frame arrives, whatever it was doing. */
  lemma FirstReceived(z: Setup, rx0: R.State, sdu: bytes)
    requires Multi(z, sdu) && R.Inv(z.r, rx0) && !rx0.locked
    ensures |FirstFrame(z.c, sdu)| <= MAX_NPDU && OnWire(FirstFrame(z.c, sdu), FirstFrame(z.c, sdu))
    ensures var rx := R.RxIndication(z.r, rx0, 0, FirstFrame(z.c, sdu), R.RxEnv(R.Grant(MAX_NPDU), true));
            && rx.sub == R.SendFlowControl && rx.flow == R.WAIT && rx.bsOpen && rx.fcWait == 0 && !rx.locked
            && rx.rem == |sdu| - FirstPayload(z.c, |sdu|) && rx.rxDl == z.c.txDl && rx.initialTicks == 0
  {
    var f := FirstFrame(z.c, sdu);
    assert |f| == z.c.txDl;
    FirstFrameDecodes(z.c, z.r, sdu, f);
    hide FirstFrame, FirstPayload, FirstCheck, OnWire, TxPci, Accepts;
  }

  lemma AtRest(r: RxConnection)
    ensures r.Valid() ==> R.Inv(r, R.Init())
  {
  }

  lemma BringFirstAcross(z: Setup, sdu: bytes) returns (n: Net)
    requires Multi(z, sdu)
    ensures Reachable(z, n) && Inv(z, n) && FirstAcross(z, sdu, n)
  {
    hide Inv, Multi, T.Main, T.Transmit, T.Inv, R.Inv, R.RxIndication, FirstFrame, FirstPayload, OnWire, Accepts, TxPci, Reachable;
    Parts(z, sdu);
    FirstSent(z.c, T.Init(), sdu);
    AtRest(z.r);
    FirstReceived(z, R.Init(), sdu);
    var n1 := Requested(z, sdu);
    var e := ETxMain(0, Rest(n1.tx));
    ReachableStep(z, n1, e);
    var n2 := Step(z, n1, e);
    assert n2.data == [Packet(FirstFrame(z.c, sdu), Tag(0, 0))];
    var got: R.CanFrame := FirstFrame(z.c, sdu);
    var d := EData(0, got, R.RxEnv(R.Grant(MAX_NPDU), true));
    ReachableStep(z, n2, d);
    n := Step(z, n2, d);
    ReachableStep(z, n, ECancel);
  }

  lemma Parts(z: Setup, sdu: bytes)
    requires Multi(z, sdu)
    ensures z.Valid() && z.c.Valid() && Accepts(z.c, |sdu|) && IsFirst(TxPci(z.c, |sdu|)) && z.c.csTicks > 0
  {
  }

  /** The receiver grants a block from the buffer it is told about; nothing else moves. */
  lemma Granted(z: Setup, sdu: bytes, n: Net, free: nat) returns (n': Net)
    requires Multi(z, sdu) && Reachable(z, n) && Inv(z, n) && FirstAcross(z, sdu, n)
    requires free >= n.rx.rem || free == z.c.Payload()
    ensures Reachable(z, n') && Inv(z, n')
    ensures n'.tx == n.tx && n'.requests == [sdu] && n'.data == [] && n'.txPending && n'.rxPending && n'.seen == n.seen
    ensures n'.rx.sub == R.WaitFcConfirmation && n'.rx.locked && n'.rx.flow == R.CTS
    ensures n'.fc == [FlowControlFrame(z.r, R.CTS, n'.rx.bs)]
    ensures free < n.rx.rem ==> n'.rx.bs == 1
  {
    hide Inv, FlowControlFrame, ValidDl, Accepts, TxPci, FirstPayload, BlockCfs, T.Inv, Reachable;
    var e := ERxMain(0, R.MainEnv(Some(free), true));
    ReachableStep(z, n, e);
    n' := Step(z, n, e);
    if free < n.rx.rem { OneFrameBlock(z, n.rx, free); }
    ReachableStep(z, n', e);
  }

  lemma OneFrameBlock(z: Setup, rx: R.State, free: nat)
    requires z.Valid() && rx.rxDl == z.c.txDl && rx.bsOpen && free == z.c.Payload() < rx.rem
    ensures var g := R.SetRxBlockInfo(z.r, rx, free); g.bs == 1 && g.flow == R.CTS
  {
    assert free / (rx.rxDl - z.r.A() - 1) == 1;
  }

  /** The sender's confirmation of the first frame, and the receiver's of its flow control frame. */
  lemma FirstConfirmed(c: TxConnection, tx: T.State)
    requires T.Inv(c, tx) && tx.sub == T.WaitConfirmation && tx.locked && IsFirst(tx.pci)
    ensures var tx' := T.TxConfirmation(c, tx, 0);
            && tx'.sub == T.WaitFlowControl && !tx'.locked && tx'.stmin == tx.stmin && tx'.initialTicks == 0
            && tx'.rem == tx.len - FirstPayload(c, tx.len) && tx'.pci == Fc && tx'.sdu == tx.sdu
            && tx'.results == tx.results && tx'.cfs == 0
  {
  }

  /** Without the fake confirmation at the sender, flow control that overtakes the confirmation is dropped and both ends wait. */
  lemma StallsWithoutSenderFake(z: Setup, sdu: bytes) returns (n: Net)
    requires Multi(z, sdu) && !z.fakeAtSender
    ensures Reachable(z, n) && n.requests == [sdu] && Stalled(n)
  {
    hide Inv, FlowControlFrame, OnWire, Accepts, TxPci, FirstPayload, Multi, T.Inv, R.Inv, T.FlowControl, Reachable;
    Parts(z, sdu);
    var n1 := BringFirstAcross(z, sdu);
    var n2 := Granted(z, sdu, n1, n1.rx.rem);
    var got := ShortOnWire(z.r, n2.rx.bs);
    ReachableStep(z, n2, EFlow(0, got));
    var n3 := Step(z, n2, EFlow(0, got));
    assert n3.tx == n2.tx by { Ignored(z.c, n2.tx, got); }
    ReachableStep(z, n3, ETxConfirm(0));
    var n4 := Step(z, n3, ETxConfirm(0));
    SenderInv(z, n3);
    FirstConfirmed(z.c, n3.tx);
    ReachableStep(z, n4, ERxConfirm(0));
    n := Step(z, n4, ERxConfirm(0));
  }

  lemma SenderInv(z: Setup, n: Net)
    requires Inv(z, n)
    ensures T.Inv(z.c, n.tx) && R.Inv(z.r, n.rx)
  {
  }

  lemma Ignored(c: TxConnection, tx: T.State, got: bytes)
    requires c.Valid() && tx.sub != T.WaitFlowControl
    ensures T.FlowControl(c, tx, 0, got) == tx
  {
  }

  lemma ShortOnWire(r: RxConnection, bs: byte) returns (got: R.CanFrame)
    requires r.Valid()
    ensures got == FlowControlFrame(r, R.CTS, bs) && OnWire(FlowControlFrame(r, R.CTS, bs), got)
  {
    got := FlowControlFrame(r, R.CTS, bs);
  }

  /** A block of one frame: the sender sends it, and is parked again once it is confirmed. */
  lemma OneFrameSent(z: Setup, sdu: bytes, tx: T.State, got: bytes) returns (frame: R.CanFrame)
    requires Segmented(z, sdu) && T.Inv(z.c, tx) && tx.sdu == sdu && tx.sub == T.WaitFlowControl && tx.stmin.None?
    requires tx.initialTicks == 0 && tx.rem == |sdu| - FirstPayload(z.c, |sdu|)
    requires OnWire(FlowControlFrame(z.r, R.CTS, 1), got)
    ensures FrameType(z.c.A(), got) == FLOW_CONTROL
    ensures var tx1 := T.FlowControl(z.c, tx, 0, got);
            && T.Inv(z.c, tx1) && T.Main(z.c, tx1, 0, Rest(tx1)).frame == Some(frame) && OnWire(frame, frame)
            && var tx2 := T.TxConfirmation(z.c, T.Main(z.c, tx1, 0, Rest(tx1)).s, 0); tx2.sub == T.WaitFlowControl
  {
    FlowControlFrameDecodes(z.c, z.r, R.CTS, 1, got);
    T.FlowControlKeeps(z.c, tx, 0, got);
    var tx1 := T.FlowControl(z.c, tx, 0, got);
    assert tx1.sub == T.SendConsecutive && tx1.blockCfs == 1 && tx1.pci == Fc && !tx1.bufferAvailable;
    frame := SendsOne(z.c, tx1);
  }

  lemma SendsOne(c: TxConnection, tx: T.State) returns (frame: R.CanFrame)
    requires T.Inv(c, tx) && tx.sub == T.SendConsecutive && tx.blockCfs == 1 && tx.pci == Fc && !tx.bufferAvailable
    requires tx.initialTicks == 0 && c.csTicks > 0 && tx.rem > c.Payload()
    ensures T.Main(c, tx, 0, Rest(tx)).frame == Some(frame) && OnWire(frame, frame)
    ensures T.TxConfirmation(c, T.Main(c, tx, 0, Rest(tx)).s, 0).sub == T.WaitFlowControl
  {
    hide BlockCfs, Accepts, TxPci, Offset;
    frame := ConsecutiveFrame(c, tx.sn, tx.sdu[tx.cursor..tx.cursor + c.Payload()]);
  }

  /** The sender waits for a grant of one frame, the receiver for the confirmation of it. */
  lemma GrantedOne(z: Setup, sdu: bytes) returns (n: Net)
    requires Segmented(z, sdu)
    ensures Reachable(z, n) && Inv(z, n) && n.requests == [sdu] && n.data == [] && n.rxPending && n.seen == Tag(0, 0)
    ensures n.rx.sub == R.WaitFcConfirmation && n.rx.locked && n.rx.flow == R.CTS && n.fc == [FlowControlFrame(z.r, R.CTS, 1)]
    ensures n.tx.sub == T.WaitFlowControl && n.tx.stmin.None? && n.tx.initialTicks == 0 && !n.txPending
    ensures T.Inv(z.c, n.tx) && n.tx.sdu == sdu && n.tx.rem == |sdu| - FirstPayload(z.c, |sdu|)
  {
    hide Inv, FlowControlFrame, Accepts, TxPci, FirstPayload, Multi, T.Inv, R.Inv, T.TxConfirmation, Reachable;
    Parts(z, sdu);
    var n1 := BringFirstAcross(z, sdu);
    var n2 := GrantsOne(z, sdu, n1);
    ReachableStep(z, n2, ETxConfirm(0));
    n := Step(z, n2, ETxConfirm(0));
    SenderHolds(z, sdu, n2);
    FirstConfirmed(z.c, n2.tx);
    ReachableStep(z, n, ETxConfirm(0));
    SenderHolds(z, sdu, n);
  }

  /** Without the fake confirmation at the receiver, data that overtakes its confirmation is dropped and both ends wait. */
  lemma StallsWithoutReceiverFake(z: Setup, sdu: bytes) returns (n: Net)
    requires Segmented(z, sdu) && !z.fakeAtReceiver
    ensures Reachable(z, n) && n.requests == [sdu] && Stalled(n)
  {
    hide Inv, FlowControlFrame, OnWire, Accepts, TxPci, FirstPayload, Multi, T.Inv, R.Inv, T.FlowControl, T.Main,
         T.TxConfirmation, R.RxIndication, Reachable;
    Parts(z, sdu);
    var n1 := GrantedOne(z, sdu);
    var got := ShortOnWire(z.r, 1);
    var frame := OneFrameSent(z, sdu, n1.tx, got);
    ReachableStep(z, n1, EFlow(0, got));
    var n2 := Step(z, n1, EFlow(0, got));
    ReachableStep(z, n2, ETxMain(0, Rest(n2.tx)));
    var n3 := Step(z, n2, ETxMain(0, Rest(n2.tx)));
    assert n3.data == [Packet(frame, Tag(0, n2.sent))];
    ReachableStep(z, n3, ETxConfirm(0));
    var n4 := Step(z, n3, ETxConfirm(0));
    ReachableStep(z, n4, ETxConfirm(0));
    n := LosesFrame(z, n4, frame);
  }

  lemma GrantsOne(z: Setup, sdu: bytes, n: Net) returns (n': Net)
    requires Segmented(z, sdu) && Reachable(z, n) && Inv(z, n) && FirstAcross(z, sdu, n)
    ensures Reachable(z, n') && Inv(z, n')
    ensures n'.tx == n.tx && n'.requests == [sdu] && n'.data == [] && n'.txPending && n'.rxPending && n'.seen == n.seen
    ensures n'.rx.sub == R.WaitFcConfirmation && n'.rx.locked && n'.rx.flow == R.CTS
    ensures n'.fc == [FlowControlFrame(z.r, R.CTS, 1)]
  {
    hide Inv, FlowControlFrame, Accepts, TxPci, FirstPayload, ValidDl;
    n' := Granted(z, sdu, n, z.c.Payload());
  }

  lemma SenderHolds(z: Setup, sdu: bytes, n: Net)
    requires Inv(z, n) && n.requests == [sdu] && n.tx.sub != T.Idle
    ensures T.Inv(z.c, n.tx) && n.tx.sdu == sdu && n.tx.len == |sdu|
  {
  }

  /** The receiver drops the frame because it still waits for its own confirmation. */
  lemma LosesFrame(z: Setup, n: Net, frame: R.CanFrame) returns (n': Net)
    requires z.Valid() && !z.fakeAtReceiver && Reachable(z, n) && Inv(z, n)
    requires |n.data| == 1 && n.data[0].frame == frame && OnWire(frame, frame) && n.seen == Tag(0, 0) && |n.requests| == 1
    requires n.tx.sub == T.WaitFlowControl && n.fc == []
    requires n.rx.sub == R.WaitFcConfirmation && n.rx.locked && n.rx.flow == R.CTS && n.rxPending
    ensures Reachable(z, n') && n'.requests == n.requests && Stalled(n')
  {
    hide Inv, R.RxIndication, OnWire, T.Inv, R.Inv;
    var d := EData(0, frame, R.RxEnv(R.Reject, true));
    SecondFrame(z, n, frame);
    ReachableStep(z, n, d);
    var n1 := Step(z, n, d);
    ReachableStep(z, n1, ERxConfirm(0));
    n' := Step(z, n1, ERxConfirm(0));
  }

  lemma SecondFrame(z: Setup, n: Net, frame: R.CanFrame)
    requires Inv(z, n) && n.data != [] && OnWire(n.data[0].frame, frame)
    requires n.seen == Tag(0, 0) && |n.requests| == 1 && n.rx.sub != R.WaitConsecutive
    ensures R.Inv(z.r, n.rx) && R.RxIndication(z.r, n.rx, 0, frame, R.RxEnv(R.Reject, true)) == n.rx
  {
    hide T.Inv, R.Inv, OriginOk, ReceiverOk, SenderOk, R.RxIndication, OnWire;
    assert PacketOk(z.c, n.requests, n.data[0]);
    LateFrame(z, n.requests[0], 0, n.rx, 0, frame, R.RxEnv(R.Reject, true));
  }

  /** A run with this outcome in which the upper layer is honest is a run with this outcome. */
  lemma HonestIsARun(z: Setup, n: Net)
    requires z.Valid() && Reachable(z, n)
    ensures exists events :: Run(z, events) == n
  {
  }

  /**
   * The exact condition for one SDU: a run that transfers this SDU alone can stall if and only if the fake Tx
   * confirmation is missing at the sender, or is missing at the receiver and the SDU needs at least two consecutive
   * frames; and then already a run in which the upper layer always offers exactly the rest of the SDU.
   */
  lemma StallsExactlyWithoutFakes(z: Setup, sdu: bytes)
    requires Multi(z, sdu)
    ensures (exists events :: Run(z, events).requests == [sdu] && Stalled(Run(z, events)))
       <==> !z.fakeAtSender || (!z.fakeAtReceiver && Segmented(z, sdu))
    ensures !z.fakeAtSender || (!z.fakeAtReceiver && Segmented(z, sdu)) ==>
              exists n :: Reachable(z, n) && n.requests == [sdu] && Stalled(n)
  {
    hide Accepts, TxPci, FirstPayload, Stalled, Reachable;
    if !z.fakeAtSender {
      var n := StallsWithoutSenderFake(z, sdu);
      HonestIsARun(z, n);
    } else if !z.fakeAtReceiver && Segmented(z, sdu) {
      var n := StallsWithoutReceiverFake(z, sdu);
      HonestIsARun(z, n);
    } else {
      forall events | Run(z, events).requests == [sdu] ensures !Stalled(Run(z, events)) {
        if z.fakeAtReceiver {
          SingleIsOrderly(z, events);
          NeverStalled(z, events);
        } else {
          OneConsecutiveNeverStalls(z, sdu, events);
        }
      }
    }
  }
}
