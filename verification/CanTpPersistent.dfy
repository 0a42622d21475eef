/**
 * A sender that can neither cancel nor time out. It leaves a transfer only inside a block or at its end, so a flow control
 * frame for an earlier request is never on the bus when the next one starts, and with fake Tx confirmation at both ends
 * no run stalls.
 */
module CanTpPersistent {
  import opened Bytes
  import opened CanTpConfig
  import opened CanTpFrames
  import opened CanTpSegments
  import opened CanTpNet
  import opened CanTpLockstep
  import T = CanTpSender
  import R = CanTpReceiver

  predicate Persistent(c: TxConnection) {
    c.cancelDisabled && TICKS <= c.asTicks + 1 && TICKS <= c.bsTicks + 1
  }

  // ----- The sender alone -------------------------------------------------------------------------------

  /** A main function call leaves a waiting sender alone. */
  lemma StaysWaiting(c: TxConnection, tx: T.State, now: nat, env: T.Env)
    requires T.Inv(c, tx) && Persistent(c)
    ensures var o := T.Main(c, tx, now, env);
            && (o.s.sub == T.Idle ==> tx.sub in {T.Idle, T.Accepted, T.SendConsecutive} && o.frame.None?)
            && (tx.sub in {T.Idle, T.WaitFlowControl, T.WaitConfirmation} ==> o.s == tx && o.frame.None?)
    ensures T.Cancel(c, tx).0 == tx
  {
    hide ValidDl, Accepts, TxPci, BlockCfs, Offset, T.CreateFrame;
  }

  /** The block that the sender has to answer: nothing of it is left once its last frame is confirmed. */
  ghost predicate More(c: TxConnection, tx: T.State)
    requires c.Valid()
  {
    tx.sub == T.WaitFlowControl || IsFirst(tx.pci) || tx.rem > c.Payload()
  }

  /** With more to send, a confirmed sender waits for flow control or goes on; without, it is done. */
  lemma Confirmed(c: TxConnection, tx: T.State, now: nat)
    requires T.Inv(c, tx) && tx.sub != T.Idle
    ensures var tx' := T.TxConfirmation(c, tx, now);
            && !tx'.locked && (tx'.sub == T.Idle ==> tx.sub == T.WaitConfirmation && tx.locked && !More(c, tx))
            && (Parked(tx) && More(c, tx) ==> tx'.sub == T.WaitFlowControl)
            && (IsSingle(tx.pci) && tx.sub == T.WaitConfirmation && tx.locked ==> tx'.sub == T.Idle)
            && (tx'.sub == T.Idle || (tx'.stmin == tx.stmin && (IsSingle(tx.pci) <==> IsSingle(tx'.pci))
                                      && (Parked(tx) <==> Parked(tx')) && (tx'.sub == T.Accepted <==> tx.sub == T.Accepted)))
  {
    hide Accepts, BlockCfs, Offset;
  }

  /** Wait and clear-to-send never make it give up. */
  lemma Obeys(z: Setup, tx: T.State, now: nat, status: nat, bs: byte, got: bytes)
    requires z.Valid() && T.Inv(z.c, tx) && Persistent(z.c) && tx.sub == T.WaitFlowControl && status <= R.OVERFLOW
    requires OnWire(FlowControlFrame(z.r, status, bs), got)
    ensures var tx' := Heard(z.c, tx, now, got);
            && tx'.locked == tx.locked
            && (status == R.CTS ==> tx'.sub == T.SendConsecutive && tx'.pci == tx.pci && tx'.stmin.Some?)
            && (status == R.WAIT ==> tx' == tx.(flow := T.WAIT, initialTicks := now))
            && (status == R.OVERFLOW ==> tx'.sub == T.Idle)
  {
    FlowControlFrameDecodes(z.c, z.r, status, bs, got);
    hide FlowControlFrame, FlowControlCheck, OnWire, FrameType, ValidDl, Accepts, TxPci, BlockCfs, Offset, T.STminTicks;
  }

  // ----- What is on the bus -----------------------------------------------------------------------------

  /** Consecutive frames at the front of the bus. */
  ghost function Leading(data: seq<Packet>): (m: nat)
    ensures m <= |data|
  {
    if data == [] || data[0].tag.NoTag? || data[0].tag.index == 0 then 0 else 1 + Leading(data[1..])
  }

  ghost predicate IsShort(c: TxConnection, requests: seq<bytes>, t: Tag) {
    c.Valid() && t.Tag? && t.msg < |requests| && IsSingle(TxPci(c, |requests[t.msg]|))
  }

  /**
   * Frames of transfers that are over come first. A first frame is the last of all, and only while its sender waits; a
   * sender that is not idle has sent nothing else of its request.
   */
  ghost predicate Lined(c: TxConnection, tx: T.State, requests: seq<bytes>, data: seq<Packet>) {
    forall i :: 0 <= i < |data| ==> data[i].tag.Tag? && InPlace(c, tx, requests, data[i].tag, i == |data| - 1)
  }

  ghost predicate InPlace(c: TxConnection, tx: T.State, requests: seq<bytes>, t: Tag, last: bool)
    requires t.Tag?
  {
    if t.index == 0 then IsShort(c, requests, t) || (last && t.msg + 1 == |requests| && Parked(tx))
    else tx.sub == T.Idle || t.msg + 1 < |requests|
  }

  /** A receiver that sends no flow control before another first frame, with m consecutive frames still to arrive. */
  ghost predicate Spent(z: Setup, rx: R.State, m: nat)
    requires z.Valid()
  {
    || rx.sub == R.Idle
    || (rx.sub == R.WaitFcConfirmation && rx.flow == R.OVERFLOW)
    || (&& (rx.sub == R.WaitConsecutive || rx.sub == R.WaitFcConfirmation) && rx.flow == R.CTS
        && (m < rx.blockCfs || BlockCfs(rx.rem, z.c.Payload()) <= rx.blockCfs))
  }

  /** The receiver has seen nothing of the current transfer that it could answer. */
  ghost predicate Between(z: Setup, n: Net)
    requires z.Valid()
  {
    && n.fc == [] && Lined(z.c, n.tx, n.requests, n.data) && Spent(z, n.rx, Leading(n.data))
    && (n.tx.sub != T.Idle ==> n.tx.stmin.None? && (Current(n.seen, |n.requests|) ==> IsSingle(n.tx.pci)))
  }

  /** Wait frames, behind them at most one grant or refusal. */
  ghost predicate Closing(r: RxConnection, fc: seq<bytes>) {
    fc != [] ==> AllWait(r, fc[..|fc| - 1]) && IsAnyFlow(r, fc[|fc| - 1])
  }

  ghost predicate IsAnyFlow(r: RxConnection, f: bytes) {
    exists status, bs :: IsFlow(r, f, status, bs)
  }

  ghost predicate IsFlow(r: RxConnection, f: bytes, status: nat, bs: byte) {
    status <= R.OVERFLOW && f == FlowControlFrame(r, status, bs)
  }

  /** The receiver has left the current transfer, and the sender does not know it yet. */
  ghost predicate Left(z: Setup, n: Net)
    requires z.Valid()
  {
    && Current(n.seen, |n.requests|) && n.tx.sub != T.Idle && n.tx.sub != T.Accepted && !IsSingle(n.tx.pci)
    && (|| n.rx.sub == R.Idle
        || (n.rx.sub == R.WaitFcConfirmation && n.rx.flow == R.OVERFLOW)
        || (n.rx.sub == R.SendFlowControl && n.rx.flow == R.OVERFLOW && n.fc == [] && Parked(n.tx) && More(z.c, n.tx)))
    && if Parked(n.tx) then Closing(z.r, n.fc) && (n.fc != [] ==> More(z.c, n.tx)) else n.fc == []
  }

  ghost predicate Steady(z: Setup, n: Net) {
    && z.Valid() && z.fakeAtSender && z.fakeAtReceiver && Persistent(z.c) && PendingOk(n)
    && (Between(z, n) || Left(z, n) || InStep(z, n.tx, n.rx, n.data, n.fc, n.seen, |n.requests|))
  }

  lemma SteadyIsNotStalled(z: Setup, n: Net)
    requires Inv(z, n) && Steady(z, n)
    ensures !Stalled(n)
  {
    InStepIsTogether(z, n);
    TogetherIsNotStalled(z, n);
    hide R.Inv, DataOk, OriginOk, Matched, Chain, FlowControlFrame, BlockCfs, Lined, InStep, Together;
  }

  lemma InStepIsTogether(z: Setup, n: Net)
    ensures Inv(z, n) && Steady(z, n) && InStep(z, n.tx, n.rx, n.data, n.fc, n.seen, |n.requests|) ==> Together(z, n)
  {
    hide T.Inv, R.Inv, DataOk, OriginOk, Matched, Chain, ReceiverOk, Left, Between, Asking, Granting, Transferring;
  }

  lemma StartsSteady(z: Setup)
    requires z.Valid() && z.fakeAtSender && z.fakeAtReceiver && Persistent(z.c)
    ensures Steady(z, Init())
  {
  }

  // ----- Counting ---------------------------------------------------------------------------------------

  /** Once the receiver has seen the first frame of the latest request, only its consecutive frames can be on the bus. */
  lemma {:induction false} ChainTags(seen: Tag, data: seq<Packet>, count: nat)
    requires Chain(seen, data) && Current(seen, count) && forall i :: 0 <= i < |data| ==> data[i].tag.Tag? && data[i].tag.msg < count
    ensures Leading(data) == |data| && Last(seen, data) == Tag(seen.msg, seen.index + |data|)
    ensures forall i :: 0 <= i < |data| ==> data[i].tag.index > 0
    decreases |data|
  {
    if data != [] {
      assert data[0].tag == Tag(seen.msg, seen.index + 1);
      ChainTags(data[0].tag, data[1..], count);
      assert forall i :: 1 <= i < |data| ==> data[i] == data[1..][i - 1];
    }
  }

  lemma DataTags(z: Setup, n: Net)
    requires Inv(z, n) && Current(n.seen, |n.requests|)
    ensures Leading(n.data) == |n.data| && Last(n.seen, n.data) == Tag(n.seen.msg, n.seen.index + |n.data|)
    ensures forall i :: 0 <= i < |n.data| ==> n.data[i].tag.Tag? && n.data[i].tag.index > 0
  {
    hide T.Inv, R.Inv, OriginOk, ReceiverOk, SenderOk, Matched, HasFrame, Accepts, Chain, Frame;
    forall i | 0 <= i < |n.data| ensures n.data[i].tag.Tag? && n.data[i].tag.msg < |n.requests| {
      assert PacketOk(z.c, n.requests, n.data[i]);
    }
    ChainTags(n.seen, n.data, |n.requests|);
  }

  /** The frames left after k of them are j, and those left after k + j. */
  lemma {:induction false} FramesLeft(c: TxConnection, len: nat, k: nat, j: nat)
    requires c.Valid() && IsFirst(TxPci(c, len)) && (j > 0 ==> HasFrame(c, len, k + j))
    ensures BlockCfs(len - Offset(c, len, k), c.Payload()) == j + BlockCfs(len - Offset(c, len, k + j), c.Payload())
    decreases j
  {
    hide TxPci, IsFirst, Offset, BlockCfs, ValidDl;
    if j > 0 {
      OffsetMonotone(c, len, k, k + j - 1);
      if j > 1 { OffsetMonotone(c, len, k + j - 2, k + j - 1); }
      FramesLeft(c, len, k, j - 1);
      OffsetStep(c, len, k + j - 1);
      BlockCfsStep(len - Offset(c, len, k + j - 1), c.Payload());
    }
  }

  /** What the receiver still needs is on the bus, or not yet sent. */
  lemma CountLeft(z: Setup, n: Net)
    requires Inv(z, n) && InStep(z, n.tx, n.rx, n.data, n.fc, n.seen, |n.requests|)
    requires n.tx.sub == T.WaitConfirmation && n.tx.locked && n.tx.pci == Cf
    ensures var p := z.c.Payload();
            BlockCfs(n.rx.rem, p) == |n.data| + BlockCfs(if n.tx.rem <= p then 0 else n.tx.rem - p, p) && n.rx.rem > 0
  {
    hide OriginOk, Matched, Chain, ValidDl, BlockCfs, TxPci, Accepts, Asking, Granting, Transferring, DataOk, Offset;
    DataTags(z, n);
    var len := |n.tx.sdu|;
    assert n.rx.rem == len - Offset(z.c, len, n.rx.cfs);
    assert n.tx.rem == len - Offset(z.c, len, n.tx.cfs) && n.tx.cfs + 1 == n.rx.cfs + |n.data|;
    OffsetStep(z.c, len, n.tx.cfs);
    FramesLeft(z.c, len, n.rx.cfs, |n.data|);
  }

  // ----- Between two transfers --------------------------------------------------------------------------

  lemma SpentMain(z: Setup, rx: R.State, m: nat, now: nat, env: R.MainEnv)
    requires z.Valid() && R.Inv(z.r, rx) && Spent(z, rx, m)
    ensures var o := R.Main(z.r, rx, now, env);
            o.frame.None? && Spent(z, o.s, m) && (o.s.sub == R.WaitFcConfirmation ==> o.s == rx)
    ensures var rx' := R.Cancel(z.r, rx).0; Spent(z, rx', m) && (rx'.sub == R.WaitFcConfirmation ==> rx' == rx)
    ensures Spent(z, R.TxConfirmation(rx, now), m)
  {
    hide BlockCfs, ValidDl;
  }

  lemma IsConsecutive(z: Setup, sdu: bytes, i: nat, got: bytes)
    requires z.Valid() && Accepts(z.c, |sdu|) && i > 0 && HasFrame(z.c, |sdu|, i) && OnWire(Frame(z.c, sdu, i), got)
    ensures FrameType(z.r.A(), got) == CONSECUTIVE && !z.r.functional
  {
    ConsecutiveFrameDecodes(z.c, z.r, i % 16, |sdu| - Offset(z.c, |sdu|, i - 1), Segment(z.c, sdu, i), got);
  }

  /** A consecutive frame is ignored, ends the reception, or is taken off the block. */
  lemma LateOrTaken(z: Setup, rx: R.State, now: nat, got: R.CanFrame, env: R.RxEnv)
    requires z.Valid() && R.Inv(z.r, rx) && FrameType(z.r.A(), got) == CONSECUTIVE && !z.r.functional
    requires rx.sub == R.WaitConsecutive ==> rx.rxDl == z.c.txDl
    ensures var rx' := R.RxIndication(z.r, rx, now, got, env);
            if rx.sub == R.WaitConsecutive then rx'.sub == R.Idle || TookOne(rx, rx', z.c.Payload()) else rx' == rx
  {
    hide ConsecutiveCheck, FrameType, CanDl, BlockCfs;
    if rx.sub == R.WaitConsecutive && ConsecutiveCheck(z.r, rx.rxDl, rx.rem, got).ok {
      TakeOne(z, rx, now, got, env);
    }
  }

  lemma SpentTakes(z: Setup, rx: R.State, rx': R.State, m: nat)
    requires z.Valid() && Spent(z, rx, m) && m > 0 && rx.sub == R.WaitConsecutive && TookOne(rx, rx', z.c.Payload())
    ensures Spent(z, rx', m - 1)
  {
    hide BlockCfs;
    BlockCfsStep(rx.rem, z.c.Payload());
  }

  lemma {:induction false} LeadingAppend(data: seq<Packet>, p: Packet)
    requires p.tag.Tag? && p.tag.index == 0
    ensures Leading(data + [p]) == Leading(data)
  {
    if data != [] {
      LeadingAppend(data[1..], p);
      assert (data + [p])[1..] == data[1..] + [p];
    }
  }

  /** A late consecutive frame of an earlier transfer. */
  lemma BetweenLate(z: Setup, n: Net, now: nat, got: R.CanFrame, env: R.RxEnv)
    requires Inv(z, n) && Steady(z, n) && Between(z, n) && n.data != [] && OnWire(n.data[0].frame, got)
    requires n.rx.sub != R.WaitFcConfirmation && n.data[0].tag.Tag? && n.data[0].tag.index > 0
    ensures Between(z, Handed(z, n, now, got, env))
  {
    hide T.Inv, OriginOk, SenderOk, Matched, HasFrame, Frame, Accepts, R.RxIndication, BlockCfs, OnWire, Parked, InStep, Left, Tracks;
    var t := n.data[0].tag;
    assert PacketOk(z.c, n.requests, n.data[0]);
    IsConsecutive(z, n.requests[t.msg], t.index, got);
    SameFrameSize(z, n);
    LateOrTaken(z, n.rx, now, got, env);
    var rx' := R.RxIndication(z.r, n.rx, now, got, env);
    if n.rx.sub == R.WaitConsecutive && rx'.sub != R.Idle { SpentTakes(z, n.rx, rx', Leading(n.data)); }
    assert forall i :: 0 <= i < |n.data| - 1 ==> n.data[1..][i] == n.data[i + 1];
    assert InPlace(z.c, n.tx, n.requests, t, |n.data| == 1);
  }

  lemma ShortSender(z: Setup, n: Net)
    requires Inv(z, n) && n.tx.sub != T.Idle && n.tx.stmin.None? && IsShort(z.c, n.requests, Tag(|n.requests| - 1, 0))
    ensures IsSingle(n.tx.pci)
  {
    hide R.Inv, OriginOk, ReceiverOk, DataOk, Chain, TxPci, Accepts, BlockCfs, Offset;
  }

  /** A single frame ends whatever the receiver was doing. */
  lemma BetweenShort(z: Setup, n: Net, now: nat, got: R.CanFrame, env: R.RxEnv)
    requires Inv(z, n) && Steady(z, n) && Between(z, n) && n.data != [] && OnWire(n.data[0].frame, got)
    requires n.data[0].tag.Tag? && n.data[0].tag.index == 0 && IsShort(z.c, n.requests, n.data[0].tag)
    ensures Between(z, Handed(z, n, now, got, env))
  {
    hide T.Inv, R.Inv, OriginOk, SenderOk, ReceiverOk, Matched, HasFrame, Accepts, R.RxIndication, OnWire, Parked, InStep, Left,
         SingleFrame, FirstFrame, TxPci, Chain;
    var t := n.data[0].tag;
    assert PacketOk(z.c, n.requests, n.data[0]);
    SingleEnds(z, n.requests[t.msg], n.rx, now, got, env);
    assert forall i :: 0 <= i < |n.data| - 1 ==> n.data[1..][i] == n.data[i + 1];
    if n.tx.sub != T.Idle && t.msg + 1 == |n.requests| { ShortSender(z, n); }
  }

  /** The first frame of the current transfer: the receiver opens a reception, refuses it, or leaves it. */
  lemma BetweenFirst(z: Setup, n: Net, now: nat, got: R.CanFrame, env: R.RxEnv)
    requires Inv(z, n) && Steady(z, n) && Between(z, n) && n.data != [] && OnWire(n.data[0].frame, got)
    requires n.data[0].tag.Tag? && n.data[0].tag.index == 0 && !IsShort(z.c, n.requests, n.data[0].tag)
    ensures var n' := Handed(z, n, now, got, env);
            Left(z, n') || InStep(z, n'.tx, n'.rx, n'.data, n'.fc, n'.seen, |n'.requests|)
  {
    hide R.Inv, OriginOk, ReceiverOk, Matched, HasFrame, Accepts, R.RxIndication, OnWire, InStep, Left, SingleFrame, FirstFrame,
         TxPci, Chain, BlockCfs, Offset, Spent;
    var t := n.data[0].tag;
    assert PacketOk(z.c, n.requests, n.data[0]);
    assert InPlace(z.c, n.tx, n.requests, t, |n.data| == 1);
    StartOpens(z, n.requests[t.msg], n.rx, now, got, env);
    FirstPending(z.c, n.tx);
    OpenedInto(z, n.tx, R.RxIndication(z.r, n.rx, now, got, env), t, |n.requests|, Handed(z, n, now, got, env));
  }

  /** A sender that waits for its first answer has more to send. */
  lemma FirstPending(c: TxConnection, tx: T.State)
    requires T.Inv(c, tx)
    ensures Parked(tx) && tx.stmin.None? ==> More(c, tx) && tx.sub != T.Idle && tx.sub != T.Accepted && !IsSingle(tx.pci)
  {
    hide Accepts, BlockCfs, Offset;
  }

  lemma OpenedInto(z: Setup, tx: T.State, rx: R.State, t: Tag, count: nat, n: Net)
    requires z.Valid() && Parked(tx) && tx.stmin.None? && More(z.c, tx) && tx.sub != T.Idle && tx.sub != T.Accepted && !IsSingle(tx.pci)
    requires t.Tag? && t.msg + 1 == count && t.index == 0 && n.tx == tx && n.rx == rx && n.seen == t && |n.requests| == count
    requires n.data == [] && n.fc == []
    requires || rx.sub == R.Idle
             || (rx.sub == R.SendFlowControl && (rx.flow == R.OVERFLOW || (rx.flow == R.WAIT && rx.cfs == 0)))
    ensures Left(z, n) || InStep(z, n.tx, n.rx, n.data, n.fc, n.seen, |n.requests|)
  {
    hide Parked, More, BlockCfs, FlowControlFrame;
  }

  lemma BetweenData(z: Setup, n: Net, now: nat, got: R.CanFrame, env: R.RxEnv)
    requires Inv(z, n) && Steady(z, n) && Between(z, n) && n.data != [] && OnWire(n.data[0].frame, got)
    requires n.rx.sub != R.WaitFcConfirmation
    ensures Steady(z, Handed(z, n, now, got, env))
  {
    hide Inv, R.Inv, R.RxIndication, OnWire, Between, Left, InStep, IsShort;
    SenderAndReceiver(z, n);
    Tagged(z, n);
    FrameDoesNotAsk(z.r, n.rx, now, got, env);
    if n.data[0].tag.index > 0 {
      BetweenLate(z, n, now, got, env);
    } else if IsShort(z.c, n.requests, n.data[0].tag) {
      BetweenShort(z, n, now, got, env);
    } else {
      BetweenFirst(z, n, now, got, env);
    }
  }

  lemma SenderAndReceiver(z: Setup, n: Net)
    requires Inv(z, n)
    ensures T.Inv(z.c, n.tx) && R.Inv(z.r, n.rx)
  {
  }

  lemma Tagged(z: Setup, n: Net)
    requires Inv(z, n) && n.data != []
    ensures n.data[0].tag.Tag?
  {
    assert PacketOk(z.c, n.requests, n.data[0]);
  }

  /** An accepted request makes its single or first frame, or none. */
  lemma AcceptedSends(c: TxConnection, tx: T.State, now: nat, env: T.Env)
    requires T.Inv(c, tx) && tx.sub == T.Accepted
    ensures var o := T.Main(c, tx, now, env);
            && (o.s.sub == T.Idle ==> o.frame.None?)
            && (o.s.sub != T.Idle ==> o.s.stmin.None? && o.s.pci == tx.pci == TxPci(c, |tx.sdu|))
            && (o.frame.Some? ==> o.s.sub == T.WaitConfirmation && o.s.locked && (!IsSingle(tx.pci) ==> Parked(o.s)))
            && (o.s.locked ==> o.frame.Some?)
  {
    hide ValidDl, Accepts, BlockCfs, Offset, T.CreateFrame;
  }

  lemma LinedStays(c: TxConnection, tx: T.State, tx': T.State, requests: seq<bytes>, data: seq<Packet>)
    requires Lined(c, tx, requests, data) && (Parked(tx) ==> Parked(tx')) && (tx.sub == T.Idle ==> tx'.sub == T.Idle)
    ensures Lined(c, tx', requests, data)
  {
    hide IsShort, Parked;
    forall i | 0 <= i < |data| ensures data[i].tag.Tag? && InPlace(c, tx', requests, data[i].tag, i == |data| - 1) {
      assert InPlace(c, tx, requests, data[i].tag, i == |data| - 1);
    }
  }

  lemma LinedAppend(c: TxConnection, tx: T.State, tx': T.State, requests: seq<bytes>, data: seq<Packet>, p: Packet)
    requires Lined(c, tx, requests, data) && tx.sub == T.Accepted && tx'.sub != T.Idle && p.tag.Tag? && p.tag.index == 0
    requires IsShort(c, requests, p.tag) || (p.tag.msg + 1 == |requests| && Parked(tx'))
    ensures Lined(c, tx', requests, data + [p])
  {
    hide IsShort;
    var all := data + [p];
    forall i | 0 <= i < |all| ensures all[i].tag.Tag? && InPlace(c, tx', requests, all[i].tag, i == |all| - 1) {
      if i < |data| { assert all[i] == data[i] && InPlace(c, tx, requests, data[i].tag, i == |data| - 1); }
    }
  }

  lemma BetweenTxMain(z: Setup, n: Net, now: nat, env: T.Env)
    requires Inv(z, n) && Steady(z, n) && Between(z, n)
    ensures Steady(z, TxMain(z, n, now, env))
  {
    hide T.Inv, R.Inv, T.Main, OriginOk, ReceiverOk, DataOk, Chain, Spent, Left, InStep, Parked, TxPci, Leading, Lined;
    StaysWaiting(z.c, n.tx, now, env);
    var o := T.Main(z.c, n.tx, now, env);
    if n.tx.sub == T.SendConsecutive { NotInBlock(z.c, n.tx); }
    if n.tx.sub == T.Accepted {
      AcceptedSends(z.c, n.tx, now, env);
      NotParked(n.tx);
      LinedStays(z.c, n.tx, o.s, n.requests, n.data);
      if o.frame.Some? {
        var p := Packet(o.frame.value, Tag(|n.requests| - 1, n.sent));
        LeadingAppend(n.data, p);
        LinedAppend(z.c, n.tx, o.s, n.requests, n.data, p);
      }
    }
  }

  lemma NotParked(tx: T.State)
    requires tx.sub == T.Accepted || tx.sub == T.Idle
    ensures !Parked(tx)
  {
  }

  lemma NotInBlock(c: TxConnection, tx: T.State)
    requires T.Inv(c, tx) && tx.sub == T.SendConsecutive
    ensures tx.stmin.Some?
  {
    hide Accepts, BlockCfs, Offset;
  }

  lemma BetweenConfirm(z: Setup, n: Net, now: nat)
    requires Inv(z, n) && Steady(z, n) && Between(z, n)
    ensures Steady(z, SenderConfirm(z, n, now)) && Between(z, SenderConfirm(z, n, now))
  {
    hide T.Inv, R.Inv, T.TxConfirmation, OriginOk, ReceiverOk, DataOk, Chain, Spent, Left, InStep, Parked, TxPci, Leading, Lined,
         SenderOk;
    if n.txPending && n.tx.sub != T.Idle {
      Confirmed(z.c, n.tx, now);
      var tx' := T.TxConfirmation(z.c, n.tx, now);
      if tx'.sub == T.Idle { FinishedShort(z.c, n.tx); }
      LinedStays(z.c, n.tx, tx', n.requests, n.data);
    } else {
      IdleStaysIdle(z.c, n.tx, now);
    }
  }

  lemma IdleStaysIdle(c: TxConnection, tx: T.State, now: nat)
    requires T.Inv(c, tx)
    ensures tx.sub == T.Idle ==> T.TxConfirmation(c, tx, now) == tx && !tx.locked
  {
  }

  /** Without a block, only a single frame can finish a transfer. */
  lemma FinishedShort(c: TxConnection, tx: T.State)
    requires T.Inv(c, tx) && tx.sub == T.WaitConfirmation && tx.locked && !More(c, tx) && tx.stmin.None?
    ensures !Parked(tx)
  {
    hide Accepts, BlockCfs, Offset;
  }

  lemma BetweenRequest(z: Setup, n: Net, now: nat, request: Option<bytes>)
    requires Inv(z, n) && Steady(z, n)
    ensures Steady(z, Request(z, n, now, request))
  {
    hide R.Inv, OriginOk, ReceiverOk, Chain, Spent, Left, InStep, Parked, TxPci, Leading, Lined, Accepts;
    var (s, ret) := T.Transmit(z.c, n.tx, now, request);
    if ret == Ok {
      NotParked(n.tx);
      IdleIsBetween(z, n);
      SeenEarlier(z, n);
      LinedGrows(z, n, s);
    }
  }

  lemma SeenEarlier(z: Setup, n: Net)
    requires Inv(z, n) && n.tx.sub == T.Idle
    ensures n.seen.Tag? ==> n.seen.msg < |n.requests|
  {
    hide T.Inv, R.Inv, OriginOk, ReceiverOk, HasFrame, Accepts, Frame, Matched;
    if n.data != [] { assert PacketOk(z.c, n.requests, n.data[0]); }
  }

  lemma IdleIsBetween(z: Setup, n: Net)
    requires Steady(z, n) && n.tx.sub == T.Idle
    ensures Between(z, n)
  {
    hide Between, Asking, Granting, Transferring, Closing, More;
  }

  lemma LinedGrows(z: Setup, n: Net, tx': T.State)
    requires Inv(z, n) && Lined(z.c, n.tx, n.requests, n.data) && !Parked(n.tx)
    ensures Lined(z.c, tx', n.requests + [tx'.sdu], n.data)
  {
    hide T.Inv, R.Inv, OriginOk, ReceiverOk, SenderOk, Chain, HasFrame, Accepts, Frame, TxPci, Parked, Matched;
    forall i | 0 <= i < |n.data|
      ensures n.data[i].tag.Tag? && InPlace(z.c, tx', n.requests + [tx'.sdu], n.data[i].tag, i == |n.data| - 1)
    {
      assert InPlace(z.c, n.tx, n.requests, n.data[i].tag, i == |n.data| - 1);
      assert PacketOk(z.c, n.requests, n.data[i]);
    }
  }

  lemma BetweenReceiver(z: Setup, n: Net, e: Event)
    requires Inv(z, n) && Steady(z, n) && Between(z, n) && (e.ERxMain? || e.ERxConfirm? || e.ERxCancel?)
    ensures Steady(z, Step(z, n, e))
  {
    hide Inv, T.Inv, R.Inv, R.Main, R.Cancel, Left, InStep, Parked, Leading, Lined, Spent;
    SenderAndReceiver(z, n);
    SpentMain(z, n.rx, Leading(n.data), if e.ERxCancel? then 0 else e.now, if e.ERxMain? then e.mainEnv else R.MainEnv(None, false));
  }

  // ----- After the receiver has left --------------------------------------------------------------------

  /** A sender that is free again, with only consecutive frames on the bus. */
  lemma FreeAgain(z: Setup, n: Net)
    requires z.Valid() && n.tx.sub == T.Idle && n.fc == [] && Leading(n.data) == |n.data| && Spent(z, n.rx, |n.data|)
    requires forall i :: 0 <= i < |n.data| ==> n.data[i].tag.Tag? && n.data[i].tag.index > 0
    ensures Between(z, n)
  {
    hide Spent, Leading;
  }

  /** In a block the sender goes on, or gives up. */
  lemma BlockGoesOn(c: TxConnection, tx: T.State, now: nat, env: T.Env)
    requires T.Inv(c, tx) && tx.sub == T.SendConsecutive
    ensures var o := T.Main(c, tx, now, env);
            && !Parked(tx) && (o.s.sub == T.Idle ==> o.frame.None?) && o.s.sub != T.Accepted
            && (o.s.sub != T.Idle ==> !IsSingle(o.s.pci)) && (o.s.locked ==> o.frame.Some?)
  {
    hide ValidDl, Accepts, TxPci, BlockCfs, Offset, T.CreateFrame;
  }

  lemma LeftTxMain(z: Setup, n: Net, now: nat, env: T.Env)
    requires Inv(z, n) && Steady(z, n) && Left(z, n)
    ensures Steady(z, TxMain(z, n, now, env))
  {
    hide T.Inv, R.Inv, T.Main, OriginOk, ReceiverOk, Matched, DataOk, Chain, InStep, Parked, TxPci, Leading, Lined, SenderOk, Between;
    StaysWaiting(z.c, n.tx, now, env);
    if n.tx.sub == T.SendConsecutive {
      BlockGoesOn(z.c, n.tx, now, env);
      DataTags(z, n);
      var n' := TxMain(z, n, now, env);
      if n'.tx.sub == T.Idle { FreeAgain(z, n'); }
    }
  }

  lemma LeftConfirm(z: Setup, n: Net, now: nat)
    requires Inv(z, n) && Steady(z, n) && Left(z, n)
    ensures var n' := SenderConfirm(z, n, now);
            Steady(z, n') && (n.fc != [] ==> Left(z, n') && n'.tx.sub == T.WaitFlowControl)
  {
    hide T.Inv, R.Inv, T.TxConfirmation, OriginOk, ReceiverOk, DataOk, Chain, InStep, Parked, TxPci, Leading, Lined, SenderOk, Between,
         Closing;
    Confirmed(z.c, n.tx, now);
    ParkedAwaits(z.c, n.tx);
    DataTags(z, n);
    var n' := SenderConfirm(z, n, now);
    if n'.tx.sub == T.Idle { FreeAgain(z, n'); }
  }

  lemma ParkedAwaits(c: TxConnection, tx: T.State)
    requires T.Inv(c, tx)
    ensures Parked(tx) ==> tx.sub == T.WaitFlowControl || tx.locked
    ensures tx.sub == T.WaitFlowControl ==> Parked(tx) && !tx.locked && tx.pci == Fc
  {
  }

  /** Flow control for a transfer that the receiver has left. */
  lemma LeftHears(z: Setup, n: Net, now: nat, got: R.CanFrame)
    requires Inv(z, n) && Steady(z, n) && Left(z, n) && n.tx.sub == T.WaitFlowControl && n.fc != [] && OnWire(n.fc[0], got)
    ensures Steady(z, n.(tx := Heard(z.c, n.tx, now, got), fc := n.fc[1..]))
  {
    hide T.Inv, R.Inv, OriginOk, ReceiverOk, DataOk, Chain, InStep, Leading, Lined, SenderOk, Between, OnWire, Heard, FlowControlFrame,
         TxPci;
    DataTags(z, n);
    ParkedAwaits(z.c, n.tx);
    var n' := n.(tx := Heard(z.c, n.tx, now, got), fc := n.fc[1..]);
    if |n.fc| > 1 {
      assert n.fc[..|n.fc| - 1][0] == n.fc[0];
      var b: byte :| n.fc[0] == FlowControlFrame(z.r, R.WAIT, b);
      Obeys(z, n.tx, now, R.WAIT, b, got);
      assert n.fc[1..][..|n.fc| - 2] == n.fc[..|n.fc| - 1][1..];
    } else {
      var status, bs :| IsFlow(z.r, n.fc[0], status, bs);
      Obeys(z, n.tx, now, status, bs, got);
      if n'.tx.sub == T.Idle { FreeAgain(z, n'); }
    }
  }

  /** A receiver that has left says at most one thing more, that the SDU is too long. */
  lemma LeftMain(r: RxConnection, rx: R.State, now: nat, env: R.MainEnv)
    requires R.Inv(r, rx) && (rx.sub == R.Idle || (rx.flow == R.OVERFLOW && rx.sub in {R.SendFlowControl, R.WaitFcConfirmation}))
    ensures var o := R.Main(r, rx, now, env);
            && (o.frame.None? ==> o.s.sub == R.Idle || o.s == rx)
            && (o.frame.Some? ==> && rx.sub == R.SendFlowControl && o.s.sub == R.WaitFcConfirmation && o.s.flow == R.OVERFLOW
                                  && o.s.locked && IsFlow(r, o.frame.value, R.OVERFLOW, rx.bs))
    ensures var rx' := R.TxConfirmation(rx, now); if R.Awaiting(rx) then rx'.sub == R.Idle else rx' == rx
    ensures var rx' := R.Cancel(r, rx).0; rx'.sub == R.Idle || rx' == rx
  {
    hide FlowControlFrame, ValidDl, BlockCfs;
  }

  lemma LeftQuieter(z: Setup, n: Net, rx': R.State, pending: bool)
    requires Steady(z, n) && Left(z, n) && (rx'.sub == R.Idle || (rx' == n.rx && (rx'.sub == R.WaitFcConfirmation ==> pending)))
    ensures Steady(z, n.(rx := rx', rxPending := pending))
  {
    hide Between, InStep, Parked, More, Closing;
  }

  /** The refusal goes out, behind nothing else. */
  lemma LeftRefuses(z: Setup, n: Net, rx': R.State, frame: bytes)
    requires Steady(z, n) && Left(z, n) && n.rx.sub == R.SendFlowControl && IsFlow(z.r, frame, R.OVERFLOW, n.rx.bs)
    requires rx'.sub == R.WaitFcConfirmation && rx'.flow == R.OVERFLOW && rx'.locked
    ensures Steady(z, n.(rx := rx', rxPending := true, fc := n.fc + [frame]))
  {
    hide Between, InStep, Parked, More, IsFlow;
    assert n.fc + [frame] == [frame] && [frame][..0] == [];
    assert IsAnyFlow(z.r, frame);
  }

  lemma LeftReceiver(z: Setup, n: Net, e: Event)
    requires Inv(z, n) && Steady(z, n) && Left(z, n) && (e.ERxMain? || e.ERxConfirm? || e.ERxCancel?)
    ensures Steady(z, Step(z, n, e))
  {
    hide Inv, T.Inv, R.Inv, R.Main, R.Cancel, R.TxConfirmation, Between, InStep, Parked, More, IsFlow, Closing;
    SenderAndReceiver(z, n);
    LeftMain(z.r, n.rx, if e.ERxCancel? then 0 else e.now, if e.ERxMain? then e.mainEnv else R.MainEnv(None, false));
    hide Left;
    match e
    case ERxMain(now, env) =>
      var o := R.Main(z.r, n.rx, now, env);
      if o.frame.Some? {
        LeftRefuses(z, n, o.s, o.frame.value);
      } else {
        LeftQuieter(z, n, o.s, n.rxPending);
      }
    case ERxConfirm(now) =>
      if n.rxPending { LeftQuieter(z, n, R.TxConfirmation(n.rx, now), false); }
    case ERxCancel => LeftQuieter(z, n, R.Cancel(z.r, n.rx).0, n.rxPending);
    case _ =>
  }

  /** A frame of the transfer that it has left means nothing to the receiver. */
  lemma LeftData(z: Setup, n: Net, now: nat, got: R.CanFrame, env: R.RxEnv)
    requires Inv(z, n) && Steady(z, n) && Left(z, n) && n.data != [] && OnWire(n.data[0].frame, got)
    requires n.rx.sub != R.WaitFcConfirmation
    ensures Steady(z, Handed(z, n, now, got, env))
  {
    hide T.Inv, R.Inv, OriginOk, ReceiverOk, SenderOk, Matched, HasFrame, Frame, Accepts, R.RxIndication, OnWire, Parked, InStep, Between,
         More, Closing;
    DataTags(z, n);
    var t := n.data[0].tag;
    assert PacketOk(z.c, n.requests, n.data[0]) && t == Tag(n.seen.msg, n.seen.index + 1);
    LateFrame(z, n.requests[t.msg], n.seen.index, n.rx, now, got, env);
  }

  // ----- In step ------------------------------------------------------------------------------------------

  ghost predicate Stepping(z: Setup, n: Net)
    requires z.Valid()
  {
    InStep(z, n.tx, n.rx, n.data, n.fc, n.seen, |n.requests|)
  }

  /** What is on the bus for the sender fits a receiver that leaves. */
  lemma LeavesWell(z: Setup, n: Net, n': Net)
    requires Inv(z, n) && Steady(z, n) && Stepping(z, n)
    requires n'.tx == n.tx && n'.fc == n.fc && n'.rx.sub == R.Idle && Current(n'.seen, |n'.requests|)
    ensures Left(z, n')
  {
    hide T.Inv, R.Inv, OriginOk, ReceiverOk, SenderOk, Matched, DataOk, Chain, FlowControlFrame, BlockCfs, TxPci, Parked, Between, Left;
    NotShort(z, n);
    ParkedMore(z, n);
    if n.fc != [] {
      var last := n.fc[|n.fc| - 1];
      if IsWait(z.r, last) {
        var b: byte :| last == FlowControlFrame(z.r, R.WAIT, b);
        assert IsFlow(z.r, last, R.WAIT, b);
      } else {
        assert IsFlow(z.r, last, R.CTS, n.rx.bs);
      }
    }
    LeftHolds(z, n, n');
  }

  lemma LeftHolds(z: Setup, n: Net, n': Net)
    requires z.Valid() && Stepping(z, n) && n'.tx == n.tx && n'.fc == n.fc && n'.rx.sub == R.Idle && Current(n'.seen, |n'.requests|)
    requires n.tx.sub != T.Accepted && !IsSingle(n.tx.pci) && (n.fc != [] ==> More(z.c, n.tx) && IsAnyFlow(z.r, n.fc[|n.fc| - 1]))
    ensures Left(z, n')
  {
    hide FlowControlFrame, BlockCfs, TxPci, Parked, More, IsWait, IsAnyFlow;
  }

  lemma NotShort(z: Setup, n: Net)
    requires Inv(z, n) && Stepping(z, n)
    ensures n.tx.sub != T.Idle && n.tx.sub != T.Accepted && !IsSingle(n.tx.pci)
  {
    hide R.Inv, OriginOk, Matched, DataOk, Chain, FlowControlFrame, BlockCfs, Offset, Accepts;
  }

  /** While flow control is on its way, the sender has more to send. */
  lemma ParkedMore(z: Setup, n: Net)
    requires Inv(z, n) && Stepping(z, n)
    ensures n.fc != [] ==> More(z.c, n.tx)
    ensures n.tx.sub == T.WaitConfirmation && n.tx.locked && !More(z.c, n.tx) ==>
              n.fc == [] && n.rx.flow == R.CTS && BlockCfs(n.rx.rem, z.c.Payload()) <= n.rx.blockCfs
  {
    hide R.Inv, OriginOk, Matched, DataOk, Chain, FlowControlFrame, BlockCfs, Offset, Accepts, SenderOk, ReceiverOk;
    if n.tx.sub == T.WaitConfirmation && n.tx.locked && n.tx.pci == Cf { CountLeft(z, n); }
  }

  /** Together, with neither end gone, means in step. */
  lemma StillStepping(z: Setup, n: Net)
    requires Together(z, n) && Persistent(z.c) && n.requests != [] && Current(n.seen, |n.requests|)
    requires n.tx.sub != T.Idle && n.rx.sub != R.Idle && n.rx.flow != R.OVERFLOW
    ensures Steady(z, n) && Stepping(z, n)
  {
    hide Asking, Granting, Transferring, Between, Left;
  }

  lemma SteppingTxMain(z: Setup, n: Net, now: nat, env: T.Env)
    requires Inv(z, n) && Steady(z, n) && Stepping(z, n)
    ensures Steady(z, TxMain(z, n, now, env))
  {
    hide T.Inv, R.Inv, T.Main, OriginOk, ReceiverOk, Matched, DataOk, Chain, SenderOk, Between, Left, Leading, Asking, Granting, Parked,
         Transferring, TxPci, Together;
    InStepIsTogether(z, n);
    TxMainTogether(z, n, now, env);
    StaysWaiting(z.c, n.tx, now, env);
    NotShort(z, n);
    var n' := TxMain(z, n, now, env);
    if n'.tx.sub == T.Idle {
      DataTags(z, n);
      GivesUpInBlock(z, n);
      FreeAgain(z, n');
      PendingTogether(z, n');
    } else {
      StillStepping(z, n');
    }
  }

  lemma PendingTogether(z: Setup, n: Net)
    ensures Together(z, n) ==> PendingOk(n)
  {
  }

  lemma GivesUpInBlock(z: Setup, n: Net)
    requires Inv(z, n) && Stepping(z, n) && n.tx.sub == T.SendConsecutive
    ensures n.fc == [] && Spent(z, n.rx, |n.data|)
  {
    hide OriginOk, ReceiverOk, Matched, DataOk, Chain, SenderOk, BlockCfs, FlowControlFrame, Offset, Accepts, TxPci, ValidDl;
  }

  lemma SteppingConfirm(z: Setup, n: Net, now: nat)
    requires Inv(z, n) && Steady(z, n) && Stepping(z, n)
    ensures var n' := SenderConfirm(z, n, now);
            Steady(z, n') && (n.fc != [] ==> Stepping(z, n') && (Parked(n'.tx) ==> n'.tx.sub == T.WaitFlowControl))
  {
    hide T.Inv, R.Inv, T.TxConfirmation, OriginOk, ReceiverOk, DataOk, Chain, SenderOk, Between, Left, Leading, Asking, Granting,
         Transferring, TxPci, Together, Parked, More, BlockCfs;
    InStepIsTogether(z, n);
    SenderConfirmTogether(z, n, now);
    ParkedConfirms(z, n, now);
    NotShort(z, n);
    ParkedMore(z, n);
    DataTags(z, n);
    Confirmed(z.c, n.tx, now);
    var n' := SenderConfirm(z, n, now);
    if n'.tx.sub == T.Idle {
      Grants(z, n);
      FreeAgain(z, n');
      PendingTogether(z, n');
    } else {
      StillStepping(z, n');
    }
  }

  lemma Grants(z: Setup, n: Net)
    requires Inv(z, n) && Stepping(z, n)
    ensures n.rx.flow == R.CTS ==> n.rx.sub == R.WaitConsecutive || n.rx.sub == R.WaitFcConfirmation
  {
    hide T.Inv, OriginOk, ReceiverOk, Matched, DataOk, Chain, SenderOk, BlockCfs, Asking, Granting, Transferring;
  }

  /** Only wait and clear-to-send are on their way to the sender. */
  lemma SteppingHears(z: Setup, n: Net, now: nat, got: R.CanFrame)
    requires Inv(z, n) && Steady(z, n) && Stepping(z, n) && (Parked(n.tx) ==> n.tx.sub == T.WaitFlowControl)
    requires n.fc != [] && OnWire(n.fc[0], got)
    ensures Steady(z, n.(tx := Heard(z.c, n.tx, now, got), fc := n.fc[1..]))
  {
    hide T.Inv, R.Inv, OriginOk, ReceiverOk, DataOk, Chain, SenderOk, Between, Left, OnWire, Heard, FlowControlFrame, TxPci,
         Together, BlockCfs;
    InStepIsTogether(z, n);
    FlowTogether(z, n, now, got);
    assert |n.fc| > 1 ==> n.fc[..|n.fc| - 1][0] == n.fc[0];
    if IsWait(z.r, n.fc[0]) {
      var b: byte :| n.fc[0] == FlowControlFrame(z.r, R.WAIT, b);
      Obeys(z, n.tx, now, R.WAIT, b, got);
    } else {
      Obeys(z, n.tx, now, R.CTS, n.rx.bs, got);
    }
    hide InStep;
    StillStepping(z, n.(tx := Heard(z.c, n.tx, now, got), fc := n.fc[1..]));
  }

  lemma SteppingReceiver(z: Setup, n: Net, e: Event)
    requires Inv(z, n) && Steady(z, n) && Stepping(z, n) && (e.ERxMain? || e.ERxConfirm? || e.ERxCancel?)
    ensures Steady(z, Step(z, n, e)) && (e.ERxConfirm? ==> Stepping(z, Step(z, n, e)))
  {
    hide Inv, T.Inv, R.Inv, R.Main, R.Cancel, R.TxConfirmation, Between, Left, Asking, Granting, Transferring, Together;
    SenderAndReceiver(z, n);
    InStepIsTogether(z, n);
    match e {
      case ERxMain(now, env) =>
        RxMainTogether(z, n, now, env);
        RxMainView(z.r, n.rx, now, env);
        IdleStays(z.r, n.rx, now, env);
      case ERxConfirm(now) =>
        ReceiverConfirmTogether(z, n, now);
      case _ =>
        RxCancelTogether(z, n);
    }
    FlowKept(z.r, n.rx, if e.ERxConfirm? then e.now else 0);
    var n' := Step(z, n, e);
    if n'.rx.sub == R.Idle {
      LeavesWell(z, n, n');
      PendingTogether(z, n');
    } else {
      StillStepping(z, n');
    }
  }

  lemma FlowKept(r: RxConnection, rx: R.State, now: nat)
    requires R.Inv(r, rx) && rx.sub != R.Idle && rx.flow != R.OVERFLOW
    ensures R.TxConfirmation(rx, now).flow == rx.flow && R.TxConfirmation(rx, now).sub != R.Idle && R.Cancel(r, rx).0.flow == rx.flow
  {
    hide ValidDl, BlockCfs;
  }

  lemma SteppingData(z: Setup, n: Net, now: nat, got: R.CanFrame, env: R.RxEnv)
    requires Inv(z, n) && Steady(z, n) && Stepping(z, n) && n.data != [] && OnWire(n.data[0].frame, got)
    requires n.rx.sub != R.WaitFcConfirmation
    ensures Steady(z, Handed(z, n, now, got, env))
  {
    hide T.Inv, R.Inv, OriginOk, ReceiverOk, SenderOk, HasFrame, Frame, Accepts, R.RxIndication, OnWire, Between, Left, Asking, Granting,
         Transferring, Together, DataOk, Chain, TookOne;
    InStepIsTogether(z, n);
    TransferTogether(z, n, now, got, env);
    NextTag(z, n);
    TakesOrLeaves(z, n, now, got, env);
    var n' := Handed(z, n, now, got, env);
    if n'.rx.sub == R.Idle {
      LeavesWell(z, n, n');
      PendingTogether(z, n');
    } else {
      StillStepping(z, n');
    }
  }

  lemma TakesOrLeaves(z: Setup, n: Net, now: nat, got: R.CanFrame, env: R.RxEnv)
    requires Inv(z, n) && Stepping(z, n) && n.data != [] && OnWire(n.data[0].frame, got) && n.rx.sub != R.WaitFcConfirmation
    ensures var rx' := R.RxIndication(z.r, n.rx, now, got, env); rx'.sub == R.Idle || rx'.flow != R.OVERFLOW
  {
    hide T.Inv, OriginOk, SenderOk, HasFrame, Frame, Accepts, R.RxIndication, OnWire, Chain, BlockCfs, Tracks, FlowControlFrame, Parked;
    DataTags(z, n);
    var t := n.data[0].tag;
    assert PacketOk(z.c, n.requests, n.data[0]);
    IsConsecutive(z, n.requests[t.msg], t.index, got);
    SameFrameSize(z, n);
    LateOrTaken(z, n.rx, now, got, env);
  }

  // ----- Runs -----------------------------------------------------------------------------------------------

  lemma ReceiverSteady(z: Setup, n: Net, e: Event)
    requires Inv(z, n) && Steady(z, n) && (e.ERxMain? || e.ERxConfirm? || e.ERxCancel?)
    ensures Steady(z, Step(z, n, e))
  {
    hide Inv, Between, Left, InStep, Step;
    if Between(z, n) {
      BetweenReceiver(z, n, e);
    } else if Left(z, n) {
      LeftReceiver(z, n, e);
    } else {
      SteppingReceiver(z, n, e);
    }
  }

  lemma DeliverDataSteady(z: Setup, n: Net, now: nat, got: R.CanFrame, env: R.RxEnv)
    requires Inv(z, n) && Steady(z, n) && n.data != [] && OnWire(n.data[0].frame, got)
    ensures Steady(z, DeliverData(z, n, now, got, env))
  {
    hide Inv, Between, Left, InStep, OnWire, Handed;
    ReceiverSteady(z, n, ERxConfirm(now));
    ReceiverConfirmKeeps(z, n, now);
    var n1 := ReceiverConfirm(n, now);
    AwaitsNothing(z, n, now);
    if Between(z, n1) {
      BetweenData(z, n1, now, got, env);
    } else if Left(z, n1) {
      LeftData(z, n1, now, got, env);
    } else {
      SteppingData(z, n1, now, got, env);
    }
  }

  lemma AwaitsNothing(z: Setup, n: Net, now: nat)
    requires Inv(z, n) && PendingOk(n)
    ensures ReceiverConfirm(n, now).rx.sub != R.WaitFcConfirmation
  {
    hide T.Inv, OriginOk, ReceiverOk, SenderOk, DataOk, Chain, Matched, ValidDl, BlockCfs;
  }

  lemma ConfirmSteady(z: Setup, n: Net, now: nat)
    requires Inv(z, n) && Steady(z, n)
    ensures Steady(z, SenderConfirm(z, n, now))
  {
    hide Inv, Between, Left, InStep, SenderConfirm;
    if Between(z, n) {
      BetweenConfirm(z, n, now);
    } else if Left(z, n) {
      LeftConfirm(z, n, now);
    } else {
      SteppingConfirm(z, n, now);
    }
  }

  lemma DeliverFlowSteady(z: Setup, n: Net, now: nat, got: R.CanFrame)
    requires Inv(z, n) && Steady(z, n) && n.fc != [] && OnWire(n.fc[0], got)
    ensures Steady(z, DeliverFlow(z, n, now, got))
  {
    hide Inv, Between, Left, InStep, OnWire, SenderConfirm, T.FlowControl, FrameType;
    SenderConfirmKeeps(z, n, now);
    NothingForBetween(z, n);
    KeepsFlow(z, n, now);
    var n1 := SenderConfirm(z, n, now);
    if Left(z, n) {
      LeftConfirm(z, n, now);
      LeftHears(z, n1, now, got);
    } else {
      SteppingConfirm(z, n, now);
      SteppingHears(z, n1, now, got);
    }
  }

  lemma NothingForBetween(z: Setup, n: Net)
    requires z.Valid()
    ensures Between(z, n) ==> n.fc == []
  {
  }

  lemma KeepsFlow(z: Setup, n: Net, now: nat)
    requires z.Valid()
    ensures SenderConfirm(z, n, now).fc == n.fc
  {
  }

  lemma StepSteady(z: Setup, n: Net, e: Event)
    requires Inv(z, n) && Steady(z, n)
    ensures Steady(z, Step(z, n, e))
  {
    hide Inv, Between, Left, InStep, OnWire, DeliverData, DeliverFlow, TxMain, Request, T.Cancel;
    SenderAndReceiver(z, n);
    match e
    case ERequest(now, request) => BetweenRequest(z, n, now, request);
    case ECancel => StaysWaiting(z.c, n.tx, 0, T.Env(T.Busy, true, true));
    case ETxMain(now, env) =>
      if Between(z, n) {
        BetweenTxMain(z, n, now, env);
      } else if Left(z, n) {
        LeftTxMain(z, n, now, env);
      } else {
        SteppingTxMain(z, n, now, env);
      }
    case ETxConfirm(now) => ConfirmSteady(z, n, now);
    case EData(now, got, env) =>
      if n.data != [] && OnWire(n.data[0].frame, got) { DeliverDataSteady(z, n, now, got, env); }
    case EFlow(now, got) =>
      if n.fc != [] && OnWire(n.fc[0], got) { DeliverFlowSteady(z, n, now, got); }
    case _ => ReceiverSteady(z, n, e);
  }

  lemma {:induction false} RunSteady(z: Setup, events: seq<Event>)
    requires z.Valid() && z.fakeAtSender && z.fakeAtReceiver && Persistent(z.c)
    ensures Steady(z, Run(z, events))
  {
    hide Inv, Steady, Step;
    if events == [] {
      StartsSteady(z);
    } else {
      RunSteady(z, events[..|events| - 1]);
      StepSteady(z, Run(z, events[..|events| - 1]), events[|events| - 1]);
    }
  }

  /** With fakes at both ends and a sender that cannot abandon a transfer, no run stalls, whatever the block size. */
  lemma PersistentNeverStalls(z: Setup, events: seq<Event>)
    requires z.Valid() && z.fakeAtSender && z.fakeAtReceiver && Persistent(z.c)
    ensures !Stalled(Run(z, events))
  {
    hide Inv, Steady, Run, Stalled;
    RunSteady(z, events);
    SteadyIsNotStalled(z, Run(z, events));
  }
}
