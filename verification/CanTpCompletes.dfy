/**
 * Progress: from a fresh start every SDU that CanTp_Transmit accepts can be carried through to the end. When the
 * layers around CanTp answer favourably, each grant, each frame and each confirmation moves the transfer on, until
 * the receiver indicates exactly the SDU and the sender confirms it.
 */
module CanTpCompletes {
  import opened Bytes
  import opened CanTpConfig
  import opened CanTpFrames
  import opened CanTpSegments
  import opened CanTpNet
  import opened CanTpLockstep
  import opened CanTpStall
  import opened MCanData
  import T = CanTpSender
  import R = CanTpReceiver

  /** The bus is empty, nothing awaits confirmation, and both ends stand at the same frame of the SDU. */
  ghost predicate Level(z: Setup, sdu: bytes, n: Net) {
    && z.Valid() && Reachable(z, n) && Inv(z, n) && n.requests == [sdu] && n.data == [] && n.fc == []
    && !n.txPending && !n.rxPending && n.seen == Tag(0, n.rx.cfs) && n.tx.cfs == n.rx.cfs
    && n.rx.delivered == [] && n.tx.results == [] && !n.rx.locked && SameBlockSize(n.tx, n.rx)
    && (n.tx.stmin.Some? ==> n.tx.stmin.value == T.STminTicks(z.c, z.r.stmin))
  }

  /** The receiver is about to grant a block. */
  ghost predicate AtGrant(z: Setup, sdu: bytes, n: Net) {
    Level(z, sdu, n) && n.tx.sub == T.WaitFlowControl && n.rx.sub == R.SendFlowControl && n.rx.flow == R.WAIT
  }

  /** The sender is inside a block, and both counters agree. */
  ghost predicate InBlock(z: Setup, sdu: bytes, n: Net) {
    && Level(z, sdu, n) && n.tx.sub == T.SendConsecutive && n.rx.sub == R.WaitConsecutive && n.rx.flow == R.CTS
    && n.tx.stmin.Some? && n.tx.blockCfs == Min(n.rx.blockCfs, BlockCfs(n.rx.rem, z.c.Payload()))
  }

  /** The SDU is delivered and confirmed. */
  ghost predicate Finished(z: Setup, sdu: bytes, n: Net) {
    z.Valid() && Reachable(z, n) && n.requests == [sdu] && n.rx.delivered == [sdu] && n.tx.results == [Ok] && n.tx.sub == T.Idle
  }

  // ----- A grant ----------------------------------------------------------------------------------------

  /** With room for the whole rest, the receiver clears the sender to send. */
  lemma ReceiverGrants(r: RxConnection, rx: R.State, free: nat)
    requires R.Inv(r, rx) && rx.sub == R.SendFlowControl && rx.flow == R.WAIT && !rx.locked && free >= rx.rem
    ensures var o := R.Main(r, rx, rx.initialTicks, R.MainEnv(Some(free), true));
            && o.s.flow < 16 && o.frame == Some(FlowControlFrame(r, R.CTS, o.s.bs))
            && var rx' := R.TxConfirmation(o.s, rx.initialTicks);
               && rx' == rx.(sub := R.WaitConsecutive, flow := R.CTS, bs := o.s.bs, bsOpen := false,
                             blockCfs := if o.s.bs != 0 then o.s.bs as nat else BlockCfs(rx.rem, rx.rxDl - r.A() - 1))
               && (!rx.bsOpen ==> o.s.bs == rx.bs)
  {
    hide FlowControlFrame, BlockCfs;
  }

  /** The sender takes the grant over. */
  lemma SenderTakesGrant(z: Setup, tx: T.State, bs: byte, got: bytes)
    requires z.Valid() && T.Inv(z.c, tx) && tx.sub == T.WaitFlowControl && (tx.stmin.Some? ==> tx.bs == bs)
    requires tx.stmin.Some? ==> tx.stmin.value == T.STminTicks(z.c, z.r.stmin)
    requires OnWire(FlowControlFrame(z.r, R.CTS, bs), got)
    ensures FrameType(z.c.A(), got) == FLOW_CONTROL
    ensures var all := BlockCfs(tx.rem, z.c.Payload());
            T.FlowControl(z.c, tx, tx.initialTicks, got)
              == tx.(sub := T.SendConsecutive, flow := T.CTS, bs := bs, stmin := Some(T.STminTicks(z.c, z.r.stmin)),
                     blockCfs := Min(if bs != 0 then bs as int else all, all))
  {
    FlowControlFrameDecodes(z.c, z.r, R.CTS, bs, got);
    hide FlowControlFrame, FlowControlCheck, OnWire, FrameType, ValidDl, T.STminTicks;
  }

  /** What both ends know about the rest of the SDU. */
  lemma Aligned(z: Setup, sdu: bytes, n: Net)
    requires Level(z, sdu, n) && n.tx.sub in {T.WaitFlowControl, T.SendConsecutive} && n.rx.sub != R.Idle && n.rx.flow != R.OVERFLOW
    ensures T.Inv(z.c, n.tx) && R.Inv(z.r, n.rx) && n.tx.sdu == sdu && Tracks(z.c, sdu, n.rx, n.rx.cfs)
    ensures n.tx.rem == n.rx.rem && n.rx.rxDl == z.c.txDl && n.sent == n.tx.cfs + 1 && !n.tx.locked && n.rx.rem > 0
  {
    hide DataOk, OriginOk, ValidDl, Accepts, TxPci, BlockCfs, Offset, Reachable;
  }

  lemma Grant(z: Setup, sdu: bytes, n: Net) returns (n': Net)
    requires AtGrant(z, sdu, n)
    ensures InBlock(z, sdu, n') && n'.rx.rem == n.rx.rem
  {
    hide Inv, R.Main, T.Inv, R.Inv, FlowControlFrame, T.FlowControl, R.TxConfirmation, OnWire, FrameType, Tracks, BlockCfs, Reachable;
    Aligned(z, sdu, n);
    ReceiverGrants(z.r, n.rx, n.rx.rem);
    var m := ERxMain(n.rx.initialTicks, R.MainEnv(Some(n.rx.rem), true));
    ReachableStep(z, n, m);
    var n1 := Step(z, n, m);
    var c := ERxConfirm(n.rx.initialTicks);
    ReachableStep(z, n1, c);
    var n2 := Step(z, n1, c);
    var got := ShortOnWire(z.r, n2.rx.bs);
    SenderTakesGrant(z, n.tx, n2.rx.bs, got);
    var f := EFlow(n.tx.initialTicks, got);
    ReachableStep(z, n2, f);
    n' := Step(z, n2, f);
    ReachableStep(z, n', f);
    assert n'.fc == [];
  }

  // ----- A frame ----------------------------------------------------------------------------------------

  /** What the sender still has to wait for: nothing before the first frame of a block, STmin between frames. */
  function Delay(tx: T.State): nat {
    if tx.pci == Cf && tx.stmin.Some? then tx.stmin.value else 0
  }

  /** A buffer granted at once is kept while STmin runs, so N_Cs does not limit STmin. */
  lemma SenderAsks(c: TxConnection, tx: T.State)
    requires T.Inv(c, tx) && tx.sub == T.SendConsecutive && tx.stmin.Some? && c.csTicks > 0 && Delay(tx) > 0
    ensures T.Main(c, tx, tx.initialTicks, Rest(tx)) == T.Output(tx.(bufferAvailable := true), None)
  {
    hide ValidDl, Accepts, TxPci, BlockCfs, Offset, T.CreateFrame;
  }

  /** The sender makes the next frame of the segmentation once its time has come. */
  lemma SenderSends(c: TxConnection, tx: T.State)
    requires T.Inv(c, tx) && tx.sub == T.SendConsecutive && tx.stmin.Some? && c.csTicks > 0
    requires tx.stmin.value < TICKS && (tx.bufferAvailable || Delay(tx) == 0)
    ensures HasFrame(c, |tx.sdu|, tx.cfs + 1)
    ensures var now := tx.initialTicks + Delay(tx);
            var o := T.Main(c, tx, now, Rest(tx));
            && o.frame == Some(Frame(c, tx.sdu, tx.cfs + 1)) && o.s.sub == T.WaitConfirmation && o.s.locked
            && o.s == tx.(sub := T.WaitConfirmation, locked := true, bufferAvailable := false, pci := Cf, initialTicks := now,
                          cursor := tx.cursor + Min(tx.rem, c.Payload()))
  {
    NextFrame(c, tx);
    hide ValidDl, Accepts, TxPci, BlockCfs, Offset, Frame, HasFrame, ConsecutiveFrame;
    assert Elapsed(tx.initialTicks + Delay(tx), tx.initialTicks) == Delay(tx);
  }

  lemma SenderConfirmed(c: TxConnection, s: T.State, now: nat)
    requires T.Inv(c, s) && s.locked && s.pci == Cf
    ensures var s' := T.TxConfirmation(c, s, now);
            if s.rem <= c.Payload() then s'.sub == T.Idle && s'.results == s.results + [Ok]
            else && s'.results == s.results && s'.cfs == s.cfs + 1 && s'.stmin == s.stmin && s'.bs == s.bs && !s'.locked
                 && (if s.blockCfs > 1 then s'.sub == T.SendConsecutive && s'.blockCfs == s.blockCfs - 1
                     else s'.sub == T.WaitFlowControl)
  {
    hide ValidDl, Accepts, TxPci, BlockCfs, Offset;
  }

  /** The receiver takes the frame it waits for. */
  lemma ReceiverTakes(z: Setup, sdu: bytes, rx: R.State, got: R.CanFrame)
    requires Expects(z, sdu, rx.cfs, rx, got) && !z.r.functional
    ensures var rx' := R.RxIndication(z.r, rx, rx.initialTicks, got, R.RxEnv(R.Reject, true));
            if rx.rem <= z.c.Payload() then rx'.sub == R.Idle && rx'.delivered == rx.delivered + [sdu]
            else && TookOne(rx, rx', z.c.Payload()) && rx'.delivered == rx.delivered && rx'.locked == rx.locked
                 && Tracks(z.c, sdu, rx', rx.cfs + 1)
  {
    hide Frame, HasFrame, ConsecutiveCheck, OnWire, Offset, TxPci, ValidDl, CanDl, BlockCfs, R.RxIndication, R.TakeSegment,
         TookOne, ConsecutiveFrame;
    var data := Segment(z.c, sdu, rx.cfs + 1);
    NextSegment(z, sdu, rx, got);
    Takes(z, rx, got, data);
    CleanArrives(z.c, sdu, rx, rx.initialTicks, data);
    SegmentCounts(z, sdu, rx, rx.initialTicks, data);
  }

  lemma NextSegment(z: Setup, sdu: bytes, rx: R.State, got: R.CanFrame)
    requires Expects(z, sdu, rx.cfs, rx, got)
    ensures FrameType(z.r.A(), got) == CONSECUTIVE
    ensures IsFirst(TxPci(z.c, |sdu|)) && |Segment(z.c, sdu, rx.cfs + 1)| == Min(rx.rem, z.c.Payload())
    ensures var x, data := ConsecutiveCheck(z.r, rx.rxDl, rx.rem, got), Segment(z.c, sdu, rx.cfs + 1);
            x.ok && x.low == rx.sn && x.offset + |data| <= |got| && got[x.offset..x.offset + |data|] == data
  {
    hide CanDl, Padded, ConsecutiveCheck, OnWire, ConsecutiveFrame, FrameType, Accepts, TxPci;
    ConsecutiveFrameDecodes(z.c, z.r, (rx.cfs + 1) % 16, rx.rem, Segment(z.c, sdu, rx.cfs + 1), got);
  }

  /** Taking a segment completes the SDU or counts one frame off the block. */
  lemma SegmentCounts(z: Setup, sdu: bytes, rx: R.State, now: nat, data: bytes)
    requires z.Valid() && |data| == Min(rx.rem, z.c.Payload()) && rx.rem > 0 && rx.blockCfs > 0
    requires rx.sub == R.WaitConsecutive && rx.flow == R.CTS
    requires Arrives(z.c, sdu, rx.cfs + 1, rx, R.TakeSegment(rx, now, data))
    ensures var rx' := R.TakeSegment(rx, now, data);
            if rx.rem <= z.c.Payload() then rx'.sub == R.Idle && rx'.delivered == rx.delivered + [sdu]
            else && TookOne(rx, rx', z.c.Payload()) && rx'.delivered == rx.delivered && rx'.locked == rx.locked
                 && Tracks(z.c, sdu, rx', rx.cfs + 1)
  {
    hide Tracks;
    var rx' := R.TakeSegment(rx, now, data);
    assert rx.rem <= z.c.Payload() ==> |rx'.delivered| == |rx.delivered| + 1;
  }

  lemma Takes(z: Setup, rx: R.State, got: R.CanFrame, data: bytes)
    requires z.Valid() && !z.r.functional && R.Inv(z.r, rx) && rx.sub == R.WaitConsecutive && rx.rxDl == z.c.txDl
    requires FrameType(z.r.A(), got) == CONSECUTIVE && |data| == Min(rx.rem, z.c.Payload())
    requires var x := ConsecutiveCheck(z.r, rx.rxDl, rx.rem, got);
             x.ok && x.low == rx.sn && x.offset + |data| <= |got| && got[x.offset..x.offset + |data|] == data
    ensures R.RxIndication(z.r, rx, rx.initialTicks, got, R.RxEnv(R.Reject, true)) == R.TakeSegment(rx, rx.initialTicks, data)
    ensures rx.blockCfs > 0 && rx.rem > 0 && rx.flow == R.CTS
  {
    hide ValidDl, CanDl, BlockCfs, FrameType, R.TakeSegment;
    R.ConsecutiveTakes(z.r, rx.rxDl, rx.rem, got);
  }

  /** If STmin has yet to pass, the sender gets hold of the buffer first. */
  lemma Ask(z: Setup, sdu: bytes, n: Net) returns (n': Net)
    requires InBlock(z, sdu, n) && z.c.csTicks > 0
    ensures InBlock(z, sdu, n') && n'.rx == n.rx && (n'.tx.bufferAvailable || Delay(n'.tx) == 0)
  {
    hide Inv, T.Main, T.Inv, R.Inv, Tracks, BlockCfs, T.STminTicks, Reachable;
    n' := n;
    if Delay(n.tx) > 0 {
      Aligned(z, sdu, n);
      SenderAsks(z.c, n.tx);
      var m := ETxMain(n.tx.initialTicks, Rest(n.tx));
      ReachableStep(z, n, m);
      n' := Step(z, n, m);
      ReachableStep(z, n', m);
    }
  }

  /** The sender after one more of its frames went out and was confirmed. */
  ghost predicate SentOne(c: TxConnection, tx: T.State, tx': T.State)
    requires c.Valid()
  {
    if tx.rem <= c.Payload() then tx'.sub == T.Idle && tx'.results == tx.results + [Ok]
    else && tx'.results == tx.results && tx'.cfs == tx.cfs + 1 && tx'.stmin == tx.stmin && tx'.bs == tx.bs && !tx'.locked
         && (if tx.blockCfs > 1 then tx'.sub == T.SendConsecutive && tx'.blockCfs == tx.blockCfs - 1
             else tx'.sub == T.WaitFlowControl)
  }

  /** One consecutive frame is sent and confirmed. */
  lemma SendFrame(z: Setup, sdu: bytes, n: Net) returns (n': Net)
    requires InBlock(z, sdu, n) && z.c.csTicks > 0 && (n.tx.bufferAvailable || Delay(n.tx) == 0)
    ensures Reachable(z, n') && Inv(z, n') && SentOne(z.c, n.tx, n'.tx) && HasFrame(z.c, |sdu|, n.tx.cfs + 1)
    ensures n' == n.(tx := n'.tx, sent := n'.sent,
                     data := [Packet(Frame(z.c, sdu, n.tx.cfs + 1), Tag(0, n.tx.cfs + 1))])
  {
    hide Inv, T.Main, T.Inv, R.Inv, T.TxConfirmation, OnWire, Frame, HasFrame, Tracks, BlockCfs, T.STminTicks, Reachable;
    Aligned(z, sdu, n);
    SenderSends(z.c, n.tx);
    var now := n.tx.initialTicks + Delay(n.tx);
    var m := ETxMain(now, Rest(n.tx));
    ReachableStep(z, n, m);
    var n1 := Step(z, n, m);
    assert n1.data == [Packet(Frame(z.c, sdu, n.tx.cfs + 1), Tag(0, n.tx.cfs + 1))];
    ReachableStep(z, n1, ETxConfirm(now));
    SenderInv(z, n1);
    SenderConfirmed(z.c, n1.tx, now);
    n' := Step(z, n1, ETxConfirm(now));
    ReachableStep(z, n', ECancel);
  }

  /** One consecutive frame: sent, confirmed, delivered. */
  lemma CarryFrame(z: Setup, sdu: bytes, n0: Net) returns (n': Net)
    requires InBlock(z, sdu, n0) && z.c.csTicks > 0 && !z.r.functional
    ensures Finished(z, sdu, n') || ((AtGrant(z, sdu, n') || InBlock(z, sdu, n')) && n'.rx.rem < n0.rx.rem)
  {
    hide Inv, T.Main, T.Inv, R.Inv, T.TxConfirmation, OnWire, R.RxIndication, Frame, HasFrame, Tracks, BlockCfs, T.STminTicks, Reachable;
    var n := Ask(z, sdu, n0);
    Aligned(z, sdu, n);
    var n2 := SendFrame(z, sdu, n);
    var got := FrameOnWire(z.c, sdu, n.tx.cfs + 1);
    var d := EData(n.rx.initialTicks, got, R.RxEnv(R.Reject, true));
    ReachableStep(z, n2, d);
    ReceiverTakes(z, sdu, n.rx, got);
    n' := Step(z, n2, d);
    ReachableStep(z, n', d);
    BlockCfsStep(n.rx.rem, z.c.Payload());
    assert n.tx.blockCfs > 0 by { Positive(z.c, n.tx); }
  }

  lemma Positive(c: TxConnection, tx: T.State)
    requires T.Inv(c, tx) && tx.sub == T.SendConsecutive
    ensures tx.blockCfs > 0
  {
  }

  /** The driver brings the frame across. */
  lemma FrameOnWire(c: TxConnection, sdu: bytes, i: nat) returns (got: R.CanFrame)
    requires c.Valid() && HasFrame(c, |sdu|, i)
    ensures OnWire(Frame(c, sdu, i), got)
  {
    FrameFits(c, sdu, i);
    got := Transmitted(Frame(c, sdu, i), 0);
  }

  lemma FrameFits(c: TxConnection, sdu: bytes, i: nat)
    requires c.Valid() && HasFrame(c, |sdu|, i)
    ensures |Frame(c, sdu, i)| <= MAX_NPDU
  {
  }

  // ----- The whole transfer -----------------------------------------------------------------------------

  lemma {:induction false} CarryOn(z: Setup, sdu: bytes, n: Net) returns (n': Net)
    requires (AtGrant(z, sdu, n) || InBlock(z, sdu, n)) && z.c.csTicks > 0 && !z.r.functional
    ensures Finished(z, sdu, n')
    decreases n.rx.rem, AtGrant(z, sdu, n)
  {
    hide Level, Finished;
    if AtGrant(z, sdu, n) {
      var n1 := Grant(z, sdu, n);
      n' := CarryOn(z, sdu, n1);
    } else {
      var n1 := CarryFrame(z, sdu, n);
      if Finished(z, sdu, n1) {
        n' := n1;
      } else {
        n' := CarryOn(z, sdu, n1);
      }
    }
  }

  /** After the first frame and its confirmation the receiver is about to grant the first block. */
  lemma Begin(z: Setup, sdu: bytes) returns (n: Net)
    requires Multi(z, sdu)
    ensures AtGrant(z, sdu, n)
  {
    hide Inv, T.Inv, R.Inv, T.TxConfirmation, FirstPayload, Accepts, TxPci, Reachable;
    var n1 := BringFirstAcross(z, sdu);
    ReachableStep(z, n1, ETxConfirm(0));
    SenderHolds(z, sdu, n1);
    FirstConfirmed(z.c, n1.tx);
    n := Step(z, n1, ETxConfirm(0));
    ReachableStep(z, n, ETxConfirm(0));
    NothingYet(z, n);
  }

  lemma NothingYet(z: Setup, n: Net)
    requires Inv(z, n) && n.seen == Tag(0, 0) && n.rx.sub != R.Idle && n.rx.flow != R.OVERFLOW
    ensures n.rx.cfs == 0 && n.rx.delivered == []
  {
    hide T.Inv, R.Inv, DataOk, Chain, SenderOk, Offset, TxPci, Accepts;
    if n.rx.delivered != [] { EarlierRequest(n.requests, n.rx.delivered, n.origin, n.seen); }
  }

  /** A delivery while a reception is open came from an earlier request. */
  lemma EarlierRequest(requests: seq<bytes>, delivered: seq<bytes>, origin: seq<nat>, seen: Tag)
    requires OriginOk(requests, delivered, origin, seen, true) && delivered != []
    ensures seen.Tag? && seen.msg > 0
  {
    assert Behind(origin[0], seen, true);
  }

  /** Every accepted SDU that needs consecutive frames can arrive, in blocks of whatever size the receiver is configured for. */
  lemma SegmentedArrives(z: Setup, sdu: bytes) returns (n: Net)
    requires Multi(z, sdu)
    ensures Finished(z, sdu, n)
  {
    hide AtGrant, Finished, Accepts, TxPci;
    Parts(z, sdu);
    var n1 := Begin(z, sdu);
    n := CarryOn(z, sdu, n1);
  }

  /** A single frame is made, confirmed and finished with. */
  lemma SingleSent(c: TxConnection, sdu: bytes)
    requires c.Valid() && Accepts(c, |sdu|) && IsSingle(TxPci(c, |sdu|)) && c.csTicks > 0
    ensures var s := T.Transmit(c, T.Init(), 0, Some(sdu)).0;
            && T.Inv(c, s) && T.Transmit(c, T.Init(), 0, Some(sdu)).1 == Ok && s.sdu == sdu
            && var o := T.Main(c, s, 0, Rest(s));
               && o.frame == Some(SingleFrame(c, sdu))
               && T.TxConfirmation(c, o.s, 0).sub == T.Idle && T.TxConfirmation(c, o.s, 0).results == [Ok]
  {
    hide SingleFrame;
  }

  /** A receiver at rest delivers a single frame at once. */
  lemma SingleReceived(z: Setup, sdu: bytes, got: R.CanFrame)
    requires z.Valid() && Accepts(z.c, |sdu|) && IsSingle(TxPci(z.c, |sdu|)) && OnWire(SingleFrame(z.c, sdu), got)
    ensures R.Inv(z.r, R.Init())
    ensures R.RxIndication(z.r, R.Init(), 0, got, R.RxEnv(R.Grant(|sdu|), true)).delivered == [sdu]
  {
    SingleFrameDecodes(z.c, z.r, sdu, got);
    hide SingleCheck, SingleFrame, OnWire, TxPci, Accepts;
    assert [] + [sdu] == [sdu];
  }

  lemma WholeSingle(z: Setup, sdu: bytes) returns (n: Net)
    requires z.Valid() && Accepts(z.c, |sdu|) && IsSingle(TxPci(z.c, |sdu|)) && z.c.csTicks > 0
    ensures Finished(z, sdu, n)
  {
    hide Inv, T.Main, T.Inv, R.Inv, T.TxConfirmation, OnWire, R.RxIndication, Accepts, TxPci, T.Transmit, Frame, SingleFrame, Reachable;
    SingleSent(z.c, sdu);
    var e := ERequest(0, Some(sdu));
    FreshStart(z);
    ReachableStep(z, Init(), e);
    var n1 := Step(z, Init(), e);
    assert n1.requests == [sdu];
    var m := ETxMain(0, Rest(n1.tx));
    ReachableStep(z, n1, m);
    var n2 := Step(z, n1, m);
    ReachableStep(z, n2, ETxConfirm(0));
    var n3 := Step(z, n2, ETxConfirm(0));
    WholeFrame(z.c, sdu);
    var got := FrameOnWire(z.c, sdu, 0);
    SingleReceived(z, sdu, got);
    var d := EData(0, got, R.RxEnv(R.Grant(|sdu|), true));
    ReachableStep(z, n3, d);
    n := Step(z, n3, d);
  }

  lemma FreshStart(z: Setup)
    requires z.Valid()
    ensures Reachable(z, Init())
  {
    assert Run(z, []) == Init();
  }

  lemma WholeFrame(c: TxConnection, sdu: bytes)
    requires c.Valid() && IsSingle(TxPci(c, |sdu|))
    ensures Frame(c, sdu, 0) == SingleFrame(c, sdu)
  {
  }

  /**
   * Progress: on every valid pair of connections, every SDU that CanTp_Transmit accepts has a run from a fresh start
   * that delivers exactly this SDU and confirms it with E_OK, with an upper layer that always offers exactly the rest of
   * the SDU, if and only if N_Cs is not zero.
   */
  lemma EverySduCanArrive(z: Setup, sdu: bytes)
    requires z.Valid() && Accepts(z.c, |sdu|)
    ensures (exists n :: Finished(z, sdu, n)) <==> z.c.csTicks > 0
    ensures z.c.csTicks == 0 ==> forall events :: Run(z, events).rx.delivered == []
  {
    hide Accepts, TxPci, Reachable;
    if z.c.csTicks == 0 {
      forall n | Reachable(z, n) ensures n.rx.delivered == [] { SilentWithoutTime(z, n); }
      forall events ensures Run(z, events).rx.delivered == [] { SilentRun(z, events); }
    } else if IsSingle(TxPci(z.c, |sdu|)) {
      var n := WholeSingle(z, sdu);
    } else {
      NotSingle(z.c, sdu);
      var n := SegmentedArrives(z, sdu);
    }
  }

  /** No frame was ever made. */
  ghost predicate Silent(n: Net) {
    n.tx.sub in {T.Idle, T.Accepted} && n.data == [] && n.rx.delivered == []
  }

  /** With N_Cs at zero the request for a buffer times out before it is made. */
  lemma AlwaysTooLate(c: TxConnection, tx: T.State, now: nat, env: T.Env)
    requires T.Inv(c, tx) && c.csTicks == 0 && tx.sub in {T.Idle, T.Accepted}
    ensures T.Main(c, tx, now, env).frame.None? && T.Main(c, tx, now, env).s.sub == T.Idle
  {
  }

  lemma SilentStep(z: Setup, n: Net, e: Event)
    requires Inv(z, n) && Silent(n) && z.c.csTicks == 0
    ensures Silent(Step(z, n, e))
  {
    hide Inv, T.Inv, R.Inv, T.Main, R.Main, T.FlowControl, T.TxConfirmation, R.RxIndication, OnWire;
    SenderInv(z, n);
    match e
    case ETxMain(now, env) => AlwaysTooLate(z.c, n.tx, now, env);
    case ERxMain(now, env) => R.MainEffect(z.r, n.rx, now, env);
    case EFlow(now, got) => NotForIdle(z.c, n.tx, now, got);
    case ETxConfirm(now) => NotForIdle(z.c, n.tx, now, []);
    case _ =>
  }

  lemma NotForIdle(c: TxConnection, tx: T.State, now: nat, got: bytes)
    requires c.Valid() && tx.sub in {T.Idle, T.Accepted}
    ensures T.FlowControl(c, tx, now, got) == tx && T.TxConfirmation(c, tx, now) == tx
  {
  }

  lemma {:induction false} SilentRun(z: Setup, events: seq<Event>)
    requires z.Valid() && z.c.csTicks == 0
    ensures Silent(Run(z, events))
  {
    hide Inv, Step;
    if events != [] {
      SilentRun(z, events[..|events| - 1]);
      SilentStep(z, Run(z, events[..|events| - 1]), events[|events| - 1]);
    }
  }

  lemma SilentWithoutTime(z: Setup, n: Net)
    requires z.Valid() && z.c.csTicks == 0 && Reachable(z, n)
    ensures n.rx.delivered == []
  {
    var events :| Run(z, events) == n;
    SilentRun(z, events);
  }

  lemma NotSingle(c: TxConnection, sdu: bytes)
    requires c.Valid()
    ensures IsSingle(TxPci(c, |sdu|)) || IsFirst(TxPci(c, |sdu|))
    ensures Accepts(c, |sdu|) && c.functional ==> IsSingle(TxPci(c, |sdu|))
  {
  }
}
