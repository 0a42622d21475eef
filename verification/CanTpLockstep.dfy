/**
 * Block lock-step: while an SDU is transferred, the sender's and the receiver's block counters run out on
 * the same consecutive frame, so the two ends never wait for each other with nothing in flight. The runs are
 * those in which a request is accepted only once the transfer before it is over at both ends.
 */
module CanTpLockstep {
  import opened Bytes
  import opened CanTpConfig
  import opened CanTpFrames
  import opened CanTpSegments
  import opened CanTpNet
  import T = CanTpSender
  import R = CanTpReceiver

  /** Consecutive frames that the sender still makes before it asks for flow control again. */
  function ToCome(tx: T.State): nat {
    match tx.sub
    case SendConsecutive => tx.blockCfs
    case WaitConfirmation =>
      if tx.pci != Cf then 0 else if tx.locked && tx.blockCfs > 0 then tx.blockCfs - 1 else tx.blockCfs
    case _ => 0
  }

  /** The sender waits for flow control, or will once the frame on the bus is confirmed. */
  ghost predicate Parked(tx: T.State) {
    || tx.sub == T.WaitFlowControl
    || (tx.sub == T.WaitConfirmation && tx.locked && !IsSingle(tx.pci) && ToCome(tx) == 0)
  }

  /** Sender and receiver agree on the block size as soon as the sender took one over. */
  ghost predicate SameBlockSize(tx: T.State, rx: R.State) {
    tx.stmin.Some? ==> tx.bs == rx.bs && !rx.bsOpen
  }

  ghost predicate IsWait(r: RxConnection, f: bytes) {
    exists b: byte :: f == FlowControlFrame(r, R.WAIT, b)
  }

  ghost predicate AllWait(r: RxConnection, fc: seq<bytes>) {
    forall i :: 0 <= i < |fc| ==> IsWait(r, fc[i])
  }

  /** The receiver still has to grant a block; only wait frames are on their way. */
  ghost predicate Asking(z: Setup, tx: T.State, rx: R.State, data: seq<Packet>, fc: seq<bytes>) {
    rx.flow == R.WAIT && data == [] && Parked(tx) && AllWait(z.r, fc)
  }

  /** The grant is on its way. */
  ghost predicate Granting(z: Setup, tx: T.State, rx: R.State, data: seq<Packet>, fc: seq<bytes>)
    requires z.Valid()
  {
    && rx.flow == R.CTS && !rx.bsOpen && data == [] && Parked(tx) && fc != [] && AllWait(z.r, fc[..|fc| - 1])
    && fc[|fc| - 1] == FlowControlFrame(z.r, R.CTS, rx.bs)
    && rx.blockCfs == if rx.bs != 0 then rx.bs else BlockCfs(rx.rem, z.c.Payload())
  }

  /** The block is being transferred: what is in flight and what is to come is what the receiver counts on. */
  ghost predicate Transferring(z: Setup, tx: T.State, rx: R.State, data: seq<Packet>, fc: seq<bytes>)
    requires z.Valid()
  {
    && rx.flow == R.CTS && fc == [] && tx.stmin.Some?
    && |data| + ToCome(tx) == Min(rx.blockCfs, BlockCfs(rx.rem, z.c.Payload()))
  }

  /** The receiver has seen a frame of the latest of count requests. */
  ghost predicate Current(seen: Tag, count: nat) {
    seen.Tag? && seen.msg + 1 == count
  }

  ghost predicate InStep(z: Setup, tx: T.State, rx: R.State, data: seq<Packet>, fc: seq<bytes>, seen: Tag, count: nat)
    requires z.Valid()
  {
    && Current(seen, count) && rx.sub != R.Idle && rx.flow != R.OVERFLOW && rx.cfs == seen.index
    && tx.sub != T.Idle && SameBlockSize(tx, rx)
    && (Asking(z, tx, rx, data, fc) || Granting(z, tx, rx, data, fc) || Transferring(z, tx, rx, data, fc))
  }

  /** Before the receiver saw the single or first frame. */
  ghost predicate Starting(tx: T.State, rx: R.State, data: seq<Packet>, fc: seq<bytes>, seen: Tag, count: nat) {
    && !Current(seen, count) && rx.sub == R.Idle && fc == [] && |data| <= 1
    && (data != [] ==> data[0].tag.Tag? && data[0].tag.index == 0 && data[0].tag.msg + 1 == count)
    && tx.stmin.None? && tx.sub != T.Idle && (data != [] ==> tx.sub != T.Accepted && (Parked(tx) || IsSingle(tx.pci)))
  }

  /** One end has given up or finished; nothing is claimed about the other. */
  ghost predicate Over(tx: T.State, rx: R.State, seen: Tag, count: nat) {
    tx.sub == T.Idle || (Current(seen, count) && (rx.sub == R.Idle || rx.flow == R.OVERFLOW))
  }

  /** CanIf will pass on the confirmation that each channel waits for. */
  ghost predicate PendingOk(n: Net) {
    && (n.tx.locked ==> n.txPending)
    && (n.rx.sub == R.WaitFcConfirmation ==> n.rx.locked && n.rxPending)
  }

  ghost predicate Together(z: Setup, n: Net) {
    && z.Valid() && z.fakeAtSender && z.fakeAtReceiver && PendingOk(n)
    && if n.requests == [] then n.tx.sub == T.Idle && n.rx.sub == R.Idle && n.data == [] && n.fc == [] && n.seen.NoTag?
       else Over(n.tx, n.rx, n.seen, |n.requests|) || Starting(n.tx, n.rx, n.data, n.fc, n.seen, |n.requests|)
            || InStep(z, n.tx, n.rx, n.data, n.fc, n.seen, |n.requests|)
  }

  /** Both ends wait for the other and nothing is in flight. */
  ghost predicate Stalled(n: Net) {
    n.tx.sub == T.WaitFlowControl && n.rx.sub == R.WaitConsecutive && n.data == [] && n.fc == []
  }

  lemma TogetherIsNotStalled(z: Setup, n: Net)
    ensures Inv(z, n) && Together(z, n) ==> !Stalled(n)
  {
  }

  /** The last transfer is over at the receiver and nothing is in flight. */
  ghost predicate Quiet(n: Net) {
    n.rx.sub == R.Idle && n.data == [] && n.fc == []
  }

  // ----- The sender's moves ---------------------------------------------------------------------------

  /** A main function call gives up, or turns one frame to come into one frame in flight, or changes nothing. */
  lemma MainView(c: TxConnection, tx: T.State, now: nat, env: T.Env)
    ensures T.Inv(c, tx) ==>
              var o := T.Main(c, tx, now, env);
              || o.s.sub == T.Idle
              || (&& o.s.stmin == tx.stmin && o.s.bs == tx.bs && tx.sub != T.Idle
                  && ToCome(tx) == ToCome(o.s) + (if o.frame.Some? && tx.stmin.Some? then 1 else 0)
                  && (Parked(tx) ==> Parked(o.s) && o.frame.None?))
  {
    hide ValidDl, Accepts, TxPci, BlockCfs, Offset, T.CreateFrame;
  }

  /** A confirmation finishes the transfer or moves the sender on within the same block. */
  lemma ConfirmView(c: TxConnection, tx: T.State, now: nat)
    ensures T.Inv(c, tx) ==>
              var tx' := T.TxConfirmation(c, tx, now);
              || tx'.sub == T.Idle
              || (&& tx'.stmin == tx.stmin && tx'.bs == tx.bs && tx.sub != T.Idle && ToCome(tx) == ToCome(tx')
                  && (Parked(tx) ==> Parked(tx')) && (Parked(tx) && tx.locked ==> tx'.sub == T.WaitFlowControl)
                  && (IsSingle(tx.pci) ==> tx' == tx))
  {
    hide Accepts, BlockCfs;
  }

  /** A wait frame leaves a waiting sender waiting. */
  lemma WaitView(z: Setup, tx: T.State, now: nat, f: bytes, got: bytes)
    ensures z.Valid() && tx.sub == T.WaitFlowControl && IsWait(z.r, f) && OnWire(f, got) ==>
              FrameType(z.c.A(), got) == FLOW_CONTROL
              && var tx' := T.FlowControl(z.c, tx, now, got);
                 tx'.sub == T.Idle || (tx'.sub == T.WaitFlowControl && tx'.stmin == tx.stmin && tx'.bs == tx.bs)
  {
    if z.Valid() && tx.sub == T.WaitFlowControl && IsWait(z.r, f) && OnWire(f, got) {
      var b: byte :| f == FlowControlFrame(z.r, R.WAIT, b);
      FlowControlFrameDecodes(z.c, z.r, R.WAIT, b, got);
    }
  }

  /** Clear-to-send makes the sender plan exactly the frames the receiver granted. */
  lemma GrantView(z: Setup, tx: T.State, rx: R.State, now: nat, got: bytes)
    ensures z.Valid() && tx.sub == T.WaitFlowControl && OnWire(FlowControlFrame(z.r, R.CTS, rx.bs), got)
            && tx.rem == rx.rem && SameBlockSize(tx, rx) ==>
              FrameType(z.c.A(), got) == FLOW_CONTROL
              && var tx', all := T.FlowControl(z.c, tx, now, got), BlockCfs(rx.rem, z.c.Payload());
                 tx'.sub == T.Idle
                 || (tx'.sub == T.SendConsecutive && tx'.stmin.Some? && tx'.bs == rx.bs
                     && ToCome(tx') == Min(if rx.bs != 0 then rx.bs as int else all, all))
  {
    if z.Valid() && tx.sub == T.WaitFlowControl && OnWire(FlowControlFrame(z.r, R.CTS, rx.bs), got) {
      FlowControlFrameDecodes(z.c, z.r, R.CTS, rx.bs, got);
    }
    hide FlowControlFrame, FlowControlCheck, OnWire, FrameType, ValidDl;
  }

  // ----- Steps of the sender --------------------------------------------------------------------------

  lemma TxMainTogether(z: Setup, n: Net, now: nat, env: T.Env)
    ensures Inv(z, n) && Together(z, n) && n.requests != [] ==> Together(z, TxMain(z, n, now, env))
  {
    hide T.Inv, R.Inv, T.Main, DataOk, ReceiverOk, OriginOk, Matched, AllWait, BlockCfs, SenderOk, Follows, PacketOk, Chain;
    MainView(z.c, n.tx, now, env);
    MainLocks(z.c, n.tx, now, env);
    NoneSentYet(z, n);
  }

  lemma NoneSentYet(z: Setup, n: Net)
    ensures Inv(z, n) && n.tx.sub == T.Accepted ==> n.sent == 0
  {
    hide T.Inv, R.Inv, DataOk, ReceiverOk, OriginOk, Chain;
  }

  lemma MainLocks(c: TxConnection, tx: T.State, now: nat, env: T.Env)
    ensures T.Inv(c, tx) ==>
              var o := T.Main(c, tx, now, env);
              && (o.s.locked ==> o.frame.Some? || tx.locked)
              && (o.frame.Some? ==> o.s.locked && o.s.sub == T.WaitConfirmation)
              && (o.frame.Some? && tx.stmin.None? ==> tx.sub == T.Accepted && o.s.pci != Cf)
              && (o.frame.None? && o.s.sub != T.Idle && tx.sub != T.Accepted ==> o.s.sub != T.Accepted)
              && (o.s.sub != T.Idle && IsSingle(tx.pci) ==> IsSingle(o.s.pci))
  {
    hide ValidDl, Accepts, BlockCfs, Offset, T.CreateFrame;
  }

  lemma SenderConfirmTogether(z: Setup, n: Net, now: nat)
    ensures Inv(z, n) && Together(z, n) ==> Together(z, SenderConfirm(z, n, now))
  {
    hide T.Inv, R.Inv, T.TxConfirmation, DataOk, ReceiverOk, OriginOk, Matched, AllWait, BlockCfs, SenderOk, Chain;
    ConfirmView(z.c, n.tx, now);
    ConfirmUnlocks(z.c, n.tx, now);
  }

  lemma ConfirmUnlocks(c: TxConnection, tx: T.State, now: nat)
    ensures T.Inv(c, tx) ==>
              var tx' := T.TxConfirmation(c, tx, now);
              !tx'.locked && (tx.sub != T.Accepted ==> tx'.sub != T.Accepted)
  {
    hide ValidDl, Accepts, TxPci, BlockCfs, Offset;
  }

  lemma CancelTogether(z: Setup, n: Net)
    ensures Inv(z, n) && Together(z, n) ==> Together(z, n.(tx := T.Cancel(z.c, n.tx).0))
  {
    hide R.Inv, DataOk, ReceiverOk, OriginOk, Matched, AllWait, BlockCfs, SenderOk, Chain, InStep, Starting;
  }

  lemma RequestTogether(z: Setup, n: Net, now: nat, request: Option<bytes>)
    ensures Inv(z, n) && Together(z, n) && (Accepted(z, n, ERequest(now, request)) != [] ==> Quiet(n)) ==>
              Together(z, Request(z, n, now, request))
  {
    hide R.Inv, DataOk, ReceiverOk, OriginOk, Matched, BlockCfs, Chain, InStep;
  }

  /** Where the sender stands when nothing is in flight. */
  lemma SamePosition(z: Setup, n: Net)
    ensures Inv(z, n) && n.data == [] && n.tx.sub == T.WaitFlowControl
            && InStep(z, n.tx, n.rx, n.data, n.fc, n.seen, |n.requests|) ==>
              n.tx.rem == n.rx.rem
  {
  }

  /** The sender after a flow control frame has reached it. */
  function Heard(c: TxConnection, tx: T.State, now: nat, got: bytes): T.State
    requires c.Valid()
  {
    if FrameType(c.A(), got) == FLOW_CONTROL then T.FlowControl(c, tx, now, got) else tx
  }

  /** A wait frame leaves the sender waiting, unless it gives up. */
  lemma WaitHeard(z: Setup, tx: T.State, rx: R.State, data: seq<Packet>, fc: seq<bytes>, now: nat, got: bytes)
    requires z.Valid() && tx.sub == T.WaitFlowControl && fc != [] && OnWire(fc[0], got) && IsWait(z.r, fc[0])
    ensures var tx' := Heard(z.c, tx, now, got);
            tx'.sub == T.Idle
            || (&& tx'.sub == T.WaitFlowControl && tx'.stmin == tx.stmin && tx'.bs == tx.bs
                && (Asking(z, tx, rx, data, fc) ==> Asking(z, tx', rx, data, fc[1..]))
                && (Granting(z, tx, rx, data, fc) && |fc| > 1 ==> Granting(z, tx', rx, data, fc[1..])))
  {
    hide IsWait, OnWire, T.FlowControl, FrameType, FlowControlFrame, BlockCfs, Matched;
    WaitView(z, tx, now, fc[0], got);
    if |fc| > 1 {
      assert fc[1..][..|fc| - 2] == fc[..|fc| - 1][1..];
    }
  }

  /** The grant makes it send the block. */
  lemma GrantHeard(z: Setup, tx: T.State, rx: R.State, data: seq<Packet>, fc: seq<bytes>, now: nat, got: bytes)
    requires z.Valid() && tx.sub == T.WaitFlowControl && |fc| == 1 && OnWire(fc[0], got)
    requires Granting(z, tx, rx, data, fc) && SameBlockSize(tx, rx) && tx.rem == rx.rem
    ensures var tx' := Heard(z.c, tx, now, got);
            tx'.sub == T.Idle || (tx'.sub == T.SendConsecutive && SameBlockSize(tx', rx) && Transferring(z, tx', rx, data, []))
  {
    hide OnWire, T.FlowControl, FrameType, FlowControlFrame, BlockCfs, Matched, IsWait;
    GrantView(z, tx, rx, now, got);
  }

  lemma InStepHeard(z: Setup, tx: T.State, rx: R.State, data: seq<Packet>, fc: seq<bytes>, seen: Tag, count: nat, now: nat, got: bytes)
    requires z.Valid() && InStep(z, tx, rx, data, fc, seen, count) && fc != [] && OnWire(fc[0], got)
    requires (Parked(tx) ==> tx.sub == T.WaitFlowControl) && (data == [] && tx.sub == T.WaitFlowControl ==> tx.rem == rx.rem)
    ensures var tx' := Heard(z.c, tx, now, got); tx'.sub == T.Idle || InStep(z, tx', rx, data, fc[1..], seen, count)
  {
    hide OnWire, Heard, FlowControlFrame, BlockCfs, Matched, IsWait;
    if |fc| > 1 || Asking(z, tx, rx, data, fc) {
      assert |fc| > 1 ==> fc[..|fc| - 1][0] == fc[0];
      WaitHeard(z, tx, rx, data, fc, now, got);
    } else {
      assert fc[1..] == [];
      GrantHeard(z, tx, rx, data, fc, now, got);
    }
  }

  /** Delivery of a flow control frame, once the pending confirmation is through. */
  lemma FlowTogether(z: Setup, n: Net, now: nat, got: R.CanFrame)
    requires Inv(z, n) && Together(z, n) && n.fc != [] && OnWire(n.fc[0], got)
    requires Parked(n.tx) ==> n.tx.sub == T.WaitFlowControl
    ensures Together(z, n.(tx := Heard(z.c, n.tx, now, got), fc := n.fc[1..]))
  {
    hide R.Inv, T.Inv, DataOk, ReceiverOk, OriginOk, Matched, SenderOk, Chain, T.FlowControl, OnWire, FrameType, InStep, Starting;
    SamePosition(z, n);
    FlowLocks(z.c, n.tx, now, got);
    if n.tx.sub != T.Idle && InStep(z, n.tx, n.rx, n.data, n.fc, n.seen, |n.requests|) {
      InStepHeard(z, n.tx, n.rx, n.data, n.fc, n.seen, |n.requests|, now, got);
    } else {
      NothingToTell(n.tx, n.rx, n.data, n.fc, n.seen, |n.requests|);
    }
  }

  /** A transfer that is only starting has no flow control on its way. */
  lemma NothingToTell(tx: T.State, rx: R.State, data: seq<Packet>, fc: seq<bytes>, seen: Tag, count: nat)
    ensures Starting(tx, rx, data, fc, seen, count) ==> fc == []
  {
  }

  lemma FlowLocks(c: TxConnection, tx: T.State, now: nat, got: bytes)
    ensures T.Inv(c, tx) ==>
              var tx' := T.FlowControl(c, tx, now, got);
              tx'.locked == tx.locked && (tx.sub == T.Idle ==> tx'.sub == T.Idle)
  {
    hide ValidDl, Accepts, TxPci, BlockCfs, Offset, FlowControlCheck;
  }

  lemma DeliverFlowTogether(z: Setup, n: Net, now: nat, got: R.CanFrame)
    ensures Inv(z, n) && Together(z, n) && n.fc != [] && OnWire(n.fc[0], got) ==>
              Together(z, DeliverFlow(z, n, now, got))
  {
    hide R.Inv, T.Inv, Inv, Together, T.FlowControl, OnWire, FrameType, T.TxConfirmation;
    SenderConfirmKeeps(z, n, now);
    SenderConfirmTogether(z, n, now);
    ParkedConfirms(z, n, now);
    NeedsFakes(z, n);
    if Inv(z, n) && Together(z, n) && n.fc != [] && OnWire(n.fc[0], got) {
      FlowTogether(z, SenderConfirm(z, n, now), now, got);
    }
  }

  lemma NeedsFakes(z: Setup, n: Net)
    ensures Together(z, n) ==> z.Valid() && z.fakeAtSender && z.fakeAtReceiver
  {
  }

  lemma ParkedConfirms(z: Setup, n: Net, now: nat)
    ensures Inv(z, n) && Together(z, n) ==>
              var tx := SenderConfirm(z, n, now).tx; Parked(tx) ==> tx.sub == T.WaitFlowControl
  {
    hide T.TxConfirmation, R.Inv, DataOk, ReceiverOk, OriginOk, Matched, SenderOk, Chain, InStep, Starting;
    ConfirmView(z.c, n.tx, now);
    ConfirmUnlocks(z.c, n.tx, now);
  }

  // ----- Steps of the receiver ------------------------------------------------------------------------

  lemma ReceiverConfirmTogether(z: Setup, n: Net, now: nat)
    ensures Inv(z, n) && Together(z, n) ==>
              Together(z, ReceiverConfirm(n, now)) && ReceiverConfirm(n, now).rx.sub != R.WaitFcConfirmation
  {
    hide T.Inv, DataOk, ReceiverOk, OriginOk, Matched, AllWait, BlockCfs, SenderOk, Chain, Parked;
  }

  lemma RxCancelTogether(z: Setup, n: Net)
    ensures Inv(z, n) && Together(z, n) ==> Together(z, n.(rx := R.Cancel(z.r, n.rx).0))
  {
    hide T.Inv, DataOk, ReceiverOk, OriginOk, Matched, AllWait, BlockCfs, SenderOk, Chain, Parked;
  }

  /** The receiver gives up, stays as it is, or tells the sender to wait or to send. */
  lemma RxMainView(r: RxConnection, s: R.State, now: nat, env: R.MainEnv)
    ensures R.Inv(r, s) ==>
              var o := R.Main(r, s, now, env);
              || o.s.sub == R.Idle
              || (o.s == s && o.frame.None?)
              || (s.flow == R.OVERFLOW && o.s.flow == R.OVERFLOW && o.frame.Some? && o.s.locked)
              || (&& s.sub == R.SendFlowControl && s.flow == R.WAIT && o.s.cfs == s.cfs
                  && o.s.rem == s.rem && o.s.rxDl == s.rxDl && (!s.bsOpen ==> !o.s.bsOpen && o.s.bs == s.bs)
                  && Told(r, o))
  {
    hide ValidDl, FlowControlFrame;
    if R.Inv(r, s) && s.sub == R.SendFlowControl && s.flow == R.WAIT && env.free.Some? {
      R.SetRxBlockInfoFrame(r, s.(blockCfs := 0), env.free.value);
      BlockSizeKept(r, s.(blockCfs := 0), env.free.value);
    }
  }

  /** The flow control frame, if any, carries the status and block size that the channel now holds. */
  ghost predicate Told(r: RxConnection, o: R.Output)
    requires r.Valid()
  {
    if o.frame.None? then o.s.flow == R.WAIT && o.s.sub == R.SendFlowControl
    else
      && o.s.sub == R.WaitFcConfirmation && o.s.locked && (o.s.flow == R.WAIT || o.s.flow == R.CTS)
      && o.frame.value == FlowControlFrame(r, o.s.flow, o.s.bs)
      && (o.s.flow == R.CTS ==> Fresh(r, o.s))
  }

  /** A block has just been granted. */
  ghost predicate Fresh(r: RxConnection, s: R.State)
    requires r.Valid()
  {
    && !s.bsOpen && ValidDl(s.rxDl)
    && s.blockCfs == if s.bs != 0 then s.bs else BlockCfs(s.rem, s.rxDl - r.A() - 1)
  }

  lemma BlockSizeKept(r: RxConnection, s: R.State, free: nat)
    requires r.Valid() && ValidDl(s.rxDl)
    ensures var s' := R.SetRxBlockInfo(r, s, free);
            && (!s.bsOpen ==> !s'.bsOpen && s'.bs == s.bs)
            && (s'.flow == R.CTS ==> Fresh(r, s'))
  {
  }

  lemma RxMainTogether(z: Setup, n: Net, now: nat, env: R.MainEnv)
    ensures Inv(z, n) && Together(z, n) ==> Together(z, RxMain(z, n, now, env))
  {
    hide T.Inv, R.Inv, R.Main, DataOk, OriginOk, ReceiverOk, SenderOk, Chain, Parked, BlockCfs, FlowControlFrame;
    RxMainView(z.r, n.rx, now, env);
    IdleStays(z.r, n.rx, now, env);
    SameFrameSize(z, n);
    if Inv(z, n) && R.Main(z.r, n.rx, now, env).frame.Some? {
      var o := R.Main(z.r, n.rx, now, env);
      assert (n.fc + [o.frame.value])[..|n.fc|] == n.fc;
      assert o.s.flow == R.WAIT ==> IsWait(z.r, FlowControlFrame(z.r, R.WAIT, o.s.bs));
    }
  }

  lemma SameFrameSize(z: Setup, n: Net)
    ensures Inv(z, n) && n.rx.sub != R.Idle && n.rx.flow != R.OVERFLOW ==> n.rx.rxDl == z.c.txDl
  {
  }

  lemma IdleStays(r: RxConnection, s: R.State, now: nat, env: R.MainEnv)
    ensures R.Inv(r, s) ==>
              var o := R.Main(r, s, now, env);
              (o.s.sub == R.Idle ==> o.frame.None?) && (s.sub == R.Idle ==> o.s == s)
  {
    hide ValidDl, FlowControlFrame, R.SetRxBlockInfo;
    if R.Inv(r, s) && s.sub == R.SendFlowControl && s.flow != R.OVERFLOW && env.free.Some? {
      R.SetRxBlockInfoFrame(r, s.(blockCfs := 0), env.free.value);
    }
  }

  // ----- Data frames ----------------------------------------------------------------------------------

  /** The receiver rests in any state but the wait for its own confirmation. */
  ghost predicate Ready(z: Setup, n: Net) {
    Inv(z, n) && Together(z, n) && n.data != [] && n.rx.sub != R.WaitFcConfirmation
  }

  /** The single or first frame arrives. */
  lemma StartTogether(z: Setup, n: Net, now: nat, got: R.CanFrame, env: R.RxEnv)
    ensures Ready(z, n) && OnWire(n.data[0].frame, got) && Starting(n.tx, n.rx, n.data, n.fc, n.seen, |n.requests|) ==>
              Together(z, Handed(z, n, now, got, env))
  {
    hide T.Inv, R.Inv, DataOk, OriginOk, ReceiverOk, SenderOk, Chain, Matched, OnWire, BlockCfs, R.RxIndication, Opens;
    FirstTag(z, n);
    if Ready(z, n) && OnWire(n.data[0].frame, got) && Starting(n.tx, n.rx, n.data, n.fc, n.seen, |n.requests|) {
      StartOpens(z, n.requests[|n.requests| - 1], n.rx, now, got, env);
    }
    SinglePciOf(z, n);
    OpensTo(z, n, now, got, env);
  }

  lemma FirstTag(z: Setup, n: Net)
    ensures Ready(z, n) && Starting(n.tx, n.rx, n.data, n.fc, n.seen, |n.requests|) ==>
              && n.requests != [] && n.data[0].tag == Tag(|n.requests| - 1, 0)
              && n.data[0].frame == Frame(z.c, n.requests[|n.requests| - 1], 0) && Accepts(z.c, |n.requests[|n.requests| - 1]|)
  {
    hide T.Inv, R.Inv, OriginOk, ReceiverOk, SenderOk;
    if Ready(z, n) { assert PacketOk(z.c, n.requests, n.data[0]); }
  }

  lemma SinglePciOf(z: Setup, n: Net)
    ensures Inv(z, n) && n.tx.sub != T.Idle && IsSingle(n.tx.pci) ==>
              n.requests != [] && IsSingle(TxPci(z.c, |n.requests[|n.requests| - 1]|))
  {
    hide R.Inv, OriginOk, ReceiverOk, DataOk, Chain, TxPci, Accepts;
  }

  /** A single frame ends in an idle channel; a first frame opens a reception, unless it is refused. */
  ghost predicate Opens(c: TxConnection, sdu: bytes, rx': R.State) {
    || rx'.sub == R.Idle
    || (rx'.sub == R.SendFlowControl && c.Valid() && !IsSingle(TxPci(c, |sdu|))
        && (rx'.flow == R.OVERFLOW || (rx'.flow == R.WAIT && rx'.cfs == 0)))
  }

  lemma StartOpens(z: Setup, sdu: bytes, rx: R.State, now: nat, got: R.CanFrame, env: R.RxEnv)
    ensures z.Valid() && R.Inv(z.r, rx) && Accepts(z.c, |sdu|) && OnWire(Frame(z.c, sdu, 0), got) ==>
              Opens(z.c, sdu, R.RxIndication(z.r, rx, now, got, env))
  {
    if z.Valid() && R.Inv(z.r, rx) && Accepts(z.c, |sdu|) && OnWire(Frame(z.c, sdu, 0), got) {
      if IsSingle(TxPci(z.c, |sdu|)) {
        SingleEnds(z, sdu, rx, now, got, env);
      } else {
        FirstOpens(z, sdu, rx, now, got, env);
      }
    }
  }

  lemma SingleEnds(z: Setup, sdu: bytes, rx: R.State, now: nat, got: R.CanFrame, env: R.RxEnv)
    requires z.Valid() && R.Inv(z.r, rx) && Accepts(z.c, |sdu|) && IsSingle(TxPci(z.c, |sdu|))
    requires OnWire(SingleFrame(z.c, sdu), got)
    ensures R.RxIndication(z.r, rx, now, got, env).sub == R.Idle
  {
    hide OnWire, R.Inv, SingleCheck, SingleFrame;
    SingleFrameDecodes(z.c, z.r, sdu, got);
  }

  lemma FirstOpens(z: Setup, sdu: bytes, rx: R.State, now: nat, got: R.CanFrame, env: R.RxEnv)
    requires z.Valid() && R.Inv(z.r, rx) && Accepts(z.c, |sdu|) && IsFirst(TxPci(z.c, |sdu|))
    requires OnWire(FirstFrame(z.c, sdu), got)
    ensures Opens(z.c, sdu, R.RxIndication(z.r, rx, now, got, env))
  {
    hide OnWire, R.Inv, R.RxFirst, R.RxSingle, R.RxConsecutive, FirstCheck, FirstFrame, FirstPayload, TxPci;
    if z.c.functional { FunctionalIsSingle(z.c, |sdu|); }
    FirstFrameDecodes(z.c, z.r, sdu, got);
    R.FirstEffect(z.r, rx, now, got, env);
  }

  lemma OpensTo(z: Setup, n: Net, now: nat, got: R.CanFrame, env: R.RxEnv)
    ensures Ready(z, n) && Starting(n.tx, n.rx, n.data, n.fc, n.seen, |n.requests|) && n.requests != []
            && (IsSingle(n.tx.pci) ==> IsSingle(TxPci(z.c, |n.requests[|n.requests| - 1]|)))
            && Opens(z.c, n.requests[|n.requests| - 1], R.RxIndication(z.r, n.rx, now, got, env)) ==>
              Together(z, Handed(z, n, now, got, env))
  {
    hide T.Inv, R.Inv, DataOk, OriginOk, ReceiverOk, SenderOk, Chain, Matched, BlockCfs, R.RxIndication, Parked;
  }

  lemma NextTag(z: Setup, n: Net)
    ensures Ready(z, n) && Current(n.seen, |n.requests|) ==>
              && n.data[0].tag == Tag(n.seen.msg, n.seen.index + 1)
              && HasFrame(z.c, |n.requests[n.seen.msg]|, n.seen.index + 1)
              && n.data[0].frame == Frame(z.c, n.requests[n.seen.msg], n.seen.index + 1) && !z.r.functional
  {
    hide T.Inv, R.Inv, OriginOk, ReceiverOk, SenderOk;
    if Ready(z, n) && Current(n.seen, |n.requests|) {
      assert PacketOk(z.c, n.requests, n.data[0]);
      if z.c.functional { FunctionalIsSingle(z.c, |n.requests[n.seen.msg]|); }
    }
  }

  /** The receiver took one frame off its block. */
  ghost predicate TookOne(rx: R.State, rx': R.State, payload: nat) {
    && rx'.cfs == rx.cfs + 1 && rx'.rem == (if rx.rem <= payload then 0 else rx.rem - payload) && rx'.rem > 0
    && rx'.bs == rx.bs && rx'.bsOpen == rx.bsOpen && rx.blockCfs > 0 && rx'.blockCfs == rx.blockCfs - 1
    && if rx'.blockCfs == 0 then rx'.sub == R.SendFlowControl && rx'.flow == R.WAIT
       else rx'.sub == R.WaitConsecutive && rx'.flow == R.CTS
  }

  lemma FrameTaken(z: Setup, sdu: bytes, i: nat, rx: R.State, now: nat, got: R.CanFrame, env: R.RxEnv)
    ensures Expects(z, sdu, i, rx, got) && rx.cfs == i && !z.r.functional ==>
              var rx' := R.RxIndication(z.r, rx, now, got, env); rx'.sub == R.Idle || TookOne(rx, rx', z.c.Payload())
  {
    if Expects(z, sdu, i, rx, got) && rx.cfs == i {
      ConsecutiveFrameDecodes(z.c, z.r, (i + 1) % 16, rx.rem, Segment(z.c, sdu, i + 1), got);
      TakeOne(z, rx, now, got, env);
    }
  }

  lemma TakeOne(z: Setup, rx: R.State, now: nat, got: R.CanFrame, env: R.RxEnv)
    requires z.Valid() && R.Inv(z.r, rx) && rx.sub == R.WaitConsecutive && rx.rxDl == z.c.txDl
    requires FrameType(z.r.A(), got) == CONSECUTIVE
    requires ConsecutiveCheck(z.r, rx.rxDl, rx.rem, got).ok
    ensures var rx' := R.RxIndication(z.r, rx, now, got, env);
            rx'.sub == R.Idle || rx' == rx || TookOne(rx, rx', z.c.Payload())
    ensures !z.r.functional ==> R.RxIndication(z.r, rx, now, got, env) != rx
  {
    hide ValidDl, CanDl, ConsecutiveCheck, BlockCfs, FrameType;
    R.ConsecutiveTakes(z.r, rx.rxDl, rx.rem, got);
  }

  /** A frame of the running block arrives. */
  lemma TransferTogether(z: Setup, n: Net, now: nat, got: R.CanFrame, env: R.RxEnv)
    ensures Ready(z, n) && OnWire(n.data[0].frame, got) && InStep(z, n.tx, n.rx, n.data, n.fc, n.seen, |n.requests|) ==>
              Together(z, Handed(z, n, now, got, env))
  {
    hide T.Inv, R.Inv, DataOk, OriginOk, ReceiverOk, SenderOk, Chain, OnWire, R.RxIndication, Expects, HasFrame, Asking,
         Granting, Transferring;
    NextTag(z, n);
    if Ready(z, n) && OnWire(n.data[0].frame, got) && InStep(z, n.tx, n.rx, n.data, n.fc, n.seen, |n.requests|) {
      ExpectsNext(z, n, got);
      FrameTaken(z, n.requests[n.seen.msg], n.seen.index, n.rx, now, got, env);
      TookOneInStep(z, n, R.RxIndication(z.r, n.rx, now, got, env));
    }
  }

  lemma ExpectsNext(z: Setup, n: Net, got: R.CanFrame)
    ensures Ready(z, n) && OnWire(n.data[0].frame, got) && InStep(z, n.tx, n.rx, n.data, n.fc, n.seen, |n.requests|) ==>
              Expects(z, n.requests[n.seen.msg], n.seen.index, n.rx, got)
  {
    hide T.Inv, DataOk, OriginOk, SenderOk, Chain, OnWire, BlockCfs;
    NextTag(z, n);
  }

  lemma TookOneInStep(z: Setup, n: Net, rx': R.State)
    ensures Ready(z, n) && InStep(z, n.tx, n.rx, n.data, n.fc, n.seen, |n.requests|) && TookOne(n.rx, rx', z.c.Payload()) ==>
              InStep(z, n.tx, rx', n.data[1..], n.fc, Tag(n.seen.msg, n.seen.index + 1), |n.requests|)
  {
    hide T.Inv, DataOk, OriginOk, ReceiverOk, SenderOk, Chain, FlowControlFrame;
    SenderParks(z, n);
  }

  /** A sender with a block size, no frame to come and none withheld is parked. */
  lemma SenderParks(z: Setup, n: Net)
    ensures Inv(z, n) && n.tx.sub != T.Idle && n.tx.stmin.Some? && ToCome(n.tx) == 0 ==> Parked(n.tx)
  {
    hide R.Inv, DataOk, OriginOk, ReceiverOk, SenderOk, Chain, TxPci, Accepts, BlockCfs, Offset;
  }

  /** Late frames cannot revive a transfer that one end has left. */
  lemma OverTogether(z: Setup, n: Net, now: nat, got: R.CanFrame, env: R.RxEnv)
    ensures Ready(z, n) && OnWire(n.data[0].frame, got) && Over(n.tx, n.rx, n.seen, |n.requests|) ==>
              Together(z, Handed(z, n, now, got, env))
  {
    hide T.Inv, R.Inv, R.RxIndication, DataOk, OriginOk, ReceiverOk, SenderOk, Chain, OnWire, BlockCfs, InStep, Starting,
         Frame, HasFrame;
    NextTag(z, n);
    if Ready(z, n) && OnWire(n.data[0].frame, got) && Over(n.tx, n.rx, n.seen, |n.requests|) {
      FrameDoesNotAsk(z.r, n.rx, now, got, env);
      NotConsecutive(z.r, n.rx);
      if Current(n.seen, |n.requests|) { LateFrame(z, n.requests[n.seen.msg], n.seen.index, n.rx, now, got, env); }
    }
  }

  lemma FrameDoesNotAsk(r: RxConnection, rx: R.State, now: nat, got: R.CanFrame, env: R.RxEnv)
    ensures R.Inv(r, rx) && rx.sub != R.WaitFcConfirmation ==>
              R.RxIndication(r, rx, now, got, env).sub != R.WaitFcConfirmation
  {
    hide ValidDl, CanDl, BlockCfs, SingleCheck, FirstCheck;
  }

  lemma NotConsecutive(r: RxConnection, rx: R.State)
    ensures R.Inv(r, rx) && (rx.sub == R.Idle || rx.flow == R.OVERFLOW) ==> rx.sub != R.WaitConsecutive
  {
  }

  lemma LateFrame(z: Setup, sdu: bytes, i: nat, rx: R.State, now: nat, got: R.CanFrame, env: R.RxEnv)
    ensures z.Valid() && R.Inv(z.r, rx) && HasFrame(z.c, |sdu|, i + 1) && OnWire(Frame(z.c, sdu, i + 1), got)
            && rx.sub != R.WaitConsecutive ==>
              R.RxIndication(z.r, rx, now, got, env) == rx
  {
    if z.Valid() && HasFrame(z.c, |sdu|, i + 1) && OnWire(Frame(z.c, sdu, i + 1), got) {
      ConsecutiveFrameDecodes(z.c, z.r, (i + 1) % 16, |sdu| - Offset(z.c, |sdu|, i), Segment(z.c, sdu, i + 1), got);
    }
  }

  lemma DeliverDataTogether(z: Setup, n: Net, now: nat, got: R.CanFrame, env: R.RxEnv)
    ensures Inv(z, n) && Together(z, n) && n.data != [] && OnWire(n.data[0].frame, got) ==>
              Together(z, DeliverData(z, n, now, got, env))
  {
    hide Inv, Over, Starting, InStep, OnWire, R.TxConfirmation, R.RxIndication, PendingOk;
    ReceiverConfirmKeeps(z, n, now);
    ReceiverConfirmTogether(z, n, now);
    NeedsFakes(z, n);
    var n1 := ReceiverConfirm(n, now);
    StartTogether(z, n1, now, got, env);
    TransferTogether(z, n1, now, got, env);
    OverTogether(z, n1, now, got, env);
  }

  // ----- Runs -------------------------------------------------------------------------------------------

  /** A request is accepted only when the transfer before it is over at both ends. */
  ghost predicate Orderly(z: Setup, n: Net, e: Event)
    requires z.Valid()
  {
    Accepted(z, n, e) != [] ==> Quiet(n)
  }

  ghost predicate OrderlyRun(z: Setup, events: seq<Event>)
    requires z.Valid()
  {
    events == [] || (OrderlyRun(z, events[..|events| - 1]) && Orderly(z, Run(z, events[..|events| - 1]), events[|events| - 1]))
  }

  /** Every orderly event keeps the two ends in step. */
  lemma StepTogether(z: Setup, n: Net, e: Event)
    ensures Inv(z, n) && Together(z, n) && z.Valid() && Orderly(z, n, e) ==> Together(z, Step(z, n, e))
  {
    hide Inv, Together, OnWire;
    if Inv(z, n) {
      match e
      case ERequest(now, request) => RequestTogether(z, n, now, request);
      case ECancel => CancelTogether(z, n);
      case ETxMain(now, env) => TxMainTogether(z, n, now, env); NothingToSend(z, n, now, env);
      case ETxConfirm(now) => SenderConfirmTogether(z, n, now);
      case EData(now, got, env) => DeliverDataTogether(z, n, now, got, env);
      case ERxMain(now, env) => RxMainTogether(z, n, now, env);
      case ERxConfirm(now) => ReceiverConfirmTogether(z, n, now);
      case ERxCancel => RxCancelTogether(z, n);
      case EFlow(now, got) => DeliverFlowTogether(z, n, now, got);
    }
  }

  lemma NothingToSend(z: Setup, n: Net, now: nat, env: T.Env)
    ensures Inv(z, n) && Together(z, n) && n.requests == [] ==> TxMain(z, n, now, env) == n
  {
  }

  lemma {:induction false} RunTogether(z: Setup, events: seq<Event>)
    requires z.Valid() && z.fakeAtSender && z.fakeAtReceiver && OrderlyRun(z, events)
    ensures Together(z, Run(z, events))
  {
    hide Inv, Step, Together, Orderly;
    if events == [] {
      StartsTogether(z);
    } else {
      RunTogether(z, events[..|events| - 1]);
      StepTogether(z, Run(z, events[..|events| - 1]), events[|events| - 1]);
    }
  }

  lemma StartsTogether(z: Setup)
    requires z.Valid() && z.fakeAtSender && z.fakeAtReceiver
    ensures Together(z, Init())
  {
  }

  /** A run that accepts one request is orderly. */
  lemma {:induction false} SingleIsOrderly(z: Setup, events: seq<Event>)
    requires z.Valid() && z.fakeAtSender && z.fakeAtReceiver && |Run(z, events).requests| <= 1
    ensures OrderlyRun(z, events)
  {
    hide Inv, Step, Accepted;
    if events != [] {
      var before := Run(z, events[..|events| - 1]);
      StepRecords(z, before, events[|events| - 1]);
      SingleIsOrderly(z, events[..|events| - 1]);
      RunTogether(z, events[..|events| - 1]);
      hide Over, Starting, InStep, PendingOk;
    }
  }

  /**
   * No stall: with fake Tx confirmation configured at both ends, in every orderly run, over any number of SDUs, the
   * sender never waits for flow control while the receiver waits for data and nothing is in flight.
   */
  lemma NeverStalled(z: Setup, events: seq<Event>)
    requires z.Valid() && z.fakeAtSender && z.fakeAtReceiver && OrderlyRun(z, events)
    ensures !Stalled(Run(z, events))
  {
    RunTogether(z, events);
    TogetherIsNotStalled(z, Run(z, events));
  }

  /**
   * Counters in step: whenever the receiver waits for consecutive frames and the sender is not done, either
   * the grant is still on its way, or the frames in flight plus those the sender still plans are exactly the
   * smaller of the receiver's block counter and the frames the rest of the SDU needs.
   */
  lemma CountersInStep(z: Setup, events: seq<Event>)
    requires z.Valid() && z.fakeAtSender && z.fakeAtReceiver && OrderlyRun(z, events)
    ensures var n := Run(z, events);
            n.rx.sub == R.WaitConsecutive && n.tx.sub != T.Idle ==>
              || (n.fc != [] && n.fc[|n.fc| - 1] == FlowControlFrame(z.r, R.CTS, n.rx.bs))
              || |n.data| + ToCome(n.tx) == Min(n.rx.blockCfs, BlockCfs(n.rx.rem, z.c.Payload()))
  {
    hide Run, Inv, Together, FlowControlFrame, BlockCfs;
    RunTogether(z, events);
    var n := Run(z, events);
    if n.rx.sub == R.WaitConsecutive && n.tx.sub != T.Idle {
      TogetherCounts(z, n);
    }
  }

  lemma TogetherCounts(z: Setup, n: Net)
    requires Inv(z, n) && Together(z, n) && n.rx.sub == R.WaitConsecutive && n.tx.sub != T.Idle
    ensures || (n.fc != [] && n.fc[|n.fc| - 1] == FlowControlFrame(z.r, R.CTS, n.rx.bs))
            || |n.data| + ToCome(n.tx) == Min(n.rx.blockCfs, BlockCfs(n.rx.rem, z.c.Payload()))
  {
    hide T.Inv, DataOk, OriginOk, SenderOk, Chain, Matched, BlockCfs, FlowControlFrame;
  }
}
