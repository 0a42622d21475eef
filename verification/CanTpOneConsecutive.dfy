/**
 * An SDU with a single consecutive frame: the sender waits for flow control once, so the fake Tx confirmation at the
 * sender alone keeps its transfer from stalling.
 */
module CanTpOneConsecutive {
  import opened Bytes
  import opened CanTpConfig
  import opened CanTpFrames
  import opened CanTpSegments
  import opened CanTpNet
  import opened CanTpLockstep
  import opened CanTpUnitBlocks
  import T = CanTpSender
  import R = CanTpReceiver

  /** What the first frame leaves fits one consecutive frame. */
  ghost predicate OneLeft(c: TxConnection, sdu: bytes) {
    c.Valid() && IsFirst(TxPci(c, |sdu|)) && |sdu| - FirstPayload(c, |sdu|) <= c.Payload()
  }

  /** The sender waits for the answer to its first frame, or will once that frame is confirmed. */
  ghost predicate Awaits(tx: T.State) {
    tx.sub == T.WaitFlowControl || (tx.sub == T.WaitConfirmation && tx.locked && IsFirst(tx.pci))
  }

  ghost predicate IsGrant(r: RxConnection, f: bytes) {
    exists b: byte :: f == FlowControlFrame(r, R.CTS, b)
  }

  ghost predicate GrantLast(r: RxConnection, fc: seq<bytes>) {
    fc != [] && IsGrant(r, fc[|fc| - 1])
  }

  /** While sender and receiver both wait, the grant is still on the bus. */
  ghost predicate Once(z: Setup, sdu: bytes, n: Net) {
    && z.Valid() && z.fakeAtSender && OneLeft(z.c, sdu) && (n.requests == [] || n.requests == [sdu])
    && (n.tx.locked ==> n.txPending)
    && (Awaits(n.tx) && Expecting(n.rx) ==> GrantLast(z.r, n.fc))
  }

  /** The only consecutive frame ends the transfer, so a sender that stopped waiting never waits again. */
  lemma NeverAgain(c: TxConnection, sdu: bytes, tx: T.State, now: nat, env: T.Env, got: bytes)
    ensures T.Inv(c, tx) && OneLeft(c, sdu) && (tx.sub != T.Idle ==> tx.sdu == sdu) ==>
              && (Awaits(T.TxConfirmation(c, tx, now)) ==> Awaits(tx))
              && (Awaits(T.FlowControl(c, tx, now, got)) ==> Awaits(tx))
              && !T.TxConfirmation(c, tx, now).locked && T.FlowControl(c, tx, now, got).locked == tx.locked
  {
    hide ValidDl, Accepts, TxPci, BlockCfs, FlowControlCheck;
    if T.Inv(c, tx) && OneLeft(c, sdu) && tx.sub != T.Idle && tx.sdu == sdu {
      OffsetMonotone(c, |sdu|, 0, tx.cfs);
    }
  }

  lemma MainAwaits(c: TxConnection, tx: T.State, now: nat, env: T.Env)
    ensures T.Inv(c, tx) ==>
              var o := T.Main(c, tx, now, env);
              && (Awaits(o.s) ==> Awaits(tx) || tx.sub == T.Accepted)
              && (o.s.locked ==> o.frame.Some? || tx.locked)
  {
    hide ValidDl, Accepts, TxPci, BlockCfs, Offset, T.CreateFrame;
  }

  /** The receiver expects nothing before the first frame is made. */
  lemma NotYetExpecting(z: Setup, n: Net)
    ensures Inv(z, n) && |n.requests| <= 1 && n.tx.sub == T.Accepted ==> !Expecting(n.rx)
  {
    hide T.Inv, R.Inv, OriginOk, Tracks, HasFrame, Accepts;
    if Inv(z, n) && n.data != [] { assert PacketOk(z.c, n.requests, n.data[|n.data| - 1]); }
  }

  lemma CurrentSdu(z: Setup, sdu: bytes, n: Net)
    ensures Inv(z, n) && Once(z, sdu, n) && n.tx.sub != T.Idle ==> n.tx.sdu == sdu
  {
  }

  lemma TxMainOnce(z: Setup, sdu: bytes, n: Net, now: nat, env: T.Env)
    ensures Inv(z, n) && Once(z, sdu, n) ==> Once(z, sdu, TxMain(z, n, now, env))
  {
    hide T.Inv, R.Inv, T.Main, DataOk, ReceiverOk, OriginOk, Matched, Chain, Awaits, Expecting, GrantLast, SentOk, OneLeft;
    MainAwaits(z.c, n.tx, now, env);
    MainSends(z.c, n.tx, n.sent, now, env);
    NotYetExpecting(z, n);
  }

  lemma SenderConfirmOnce(z: Setup, sdu: bytes, n: Net, now: nat)
    ensures Inv(z, n) && Once(z, sdu, n) ==> Once(z, sdu, SenderConfirm(z, n, now)) && !SenderConfirm(z, n, now).tx.locked
  {
    hide T.Inv, R.Inv, T.TxConfirmation, DataOk, ReceiverOk, OriginOk, SenderOk, Matched, Chain, Awaits, Expecting, GrantLast, OneLeft;
    CurrentSdu(z, sdu, n);
    NeverAgain(z.c, sdu, n.tx, now, T.Env(T.Busy, true, true), []);
  }

  /** A grant ends the sender's wait. */
  lemma GrantEndsWait(z: Setup, tx: T.State, now: nat, f: bytes, got: bytes)
    ensures z.Valid() && T.Inv(z.c, tx) && !tx.locked && IsGrant(z.r, f) && OnWire(f, got) ==>
              FrameType(z.c.A(), got) == FLOW_CONTROL && !Awaits(T.FlowControl(z.c, tx, now, got))
  {
    if z.Valid() && IsGrant(z.r, f) && OnWire(f, got) {
      var b: byte :| f == FlowControlFrame(z.r, R.CTS, b);
      FlowControlFrameDecodes(z.c, z.r, R.CTS, b, got);
    }
    hide ValidDl, Accepts, TxPci, BlockCfs, Offset, FlowControlCheck, OnWire, FrameType, FlowControlFrame;
  }

  lemma FlowOnce(z: Setup, sdu: bytes, n: Net, now: nat, got: R.CanFrame)
    ensures Inv(z, n) && Once(z, sdu, n) && !n.tx.locked && n.fc != [] && OnWire(n.fc[0], got) ==>
              Once(z, sdu, n.(tx := if FrameType(z.c.A(), got) == FLOW_CONTROL then T.FlowControl(z.c, n.tx, now, got) else n.tx,
                              fc := n.fc[1..]))
  {
    hide T.Inv, R.Inv, T.FlowControl, DataOk, ReceiverOk, OriginOk, SenderOk, Matched, Chain, Awaits, Expecting, OnWire,
         FrameType, IsGrant, OneLeft;
    CurrentSdu(z, sdu, n);
    NeverAgain(z.c, sdu, n.tx, now, T.Env(T.Busy, true, true), got);
    if n.fc != [] { GrantEndsWait(z, n.tx, now, n.fc[0], got); }
  }

  lemma DeliverFlowOnce(z: Setup, sdu: bytes, n: Net, now: nat, got: R.CanFrame)
    ensures Inv(z, n) && Once(z, sdu, n) && n.fc != [] && OnWire(n.fc[0], got) ==> Once(z, sdu, DeliverFlow(z, n, now, got))
  {
    hide Inv, Awaits, Expecting, GrantLast, OnWire, T.FlowControl, T.TxConfirmation, FrameType, OneLeft;
    SenderConfirmKeeps(z, n, now);
    SenderConfirmOnce(z, sdu, n, now);
    if z.Valid() { FlowOnce(z, sdu, SenderConfirm(z, n, now), now, got); }
  }

  lemma CancelOnce(z: Setup, sdu: bytes, n: Net)
    ensures Inv(z, n) && Once(z, sdu, n) ==> Once(z, sdu, n.(tx := T.Cancel(z.c, n.tx).0))
  {
    hide R.Inv, DataOk, ReceiverOk, OriginOk, SenderOk, Matched, Chain, Expecting, GrantLast, OneLeft;
  }

  lemma RequestOnce(z: Setup, sdu: bytes, n: Net, now: nat, request: Option<bytes>)
    ensures Inv(z, n) && Once(z, sdu, n) && Request(z, n, now, request).requests in {[], [sdu]} ==>
              Once(z, sdu, Request(z, n, now, request))
  {
    hide R.Inv, DataOk, ReceiverOk, OriginOk, SenderOk, Matched, Chain, Expecting, GrantLast, OneLeft;
  }

  // ----- The receiver -----------------------------------------------------------------------------------

  /** A grant is newly made only with its frame. */
  lemma MainGrantsOnce(r: RxConnection, s: R.State, now: nat, env: R.MainEnv)
    ensures R.Inv(r, s) ==>
              var o := R.Main(r, s, now, env);
              Expecting(o.s) ==> (o.frame.None? && Expecting(s)) || (o.frame.Some? && IsGrant(r, o.frame.value))
  {
    hide ValidDl, BlockCfs, FlowControlFrame;
    if R.Inv(r, s) && s.sub == R.SendFlowControl && s.flow == R.WAIT && env.free.Some? {
      R.SetRxBlockInfoFrame(r, s.(blockCfs := 0), env.free.value);
    }
  }

  lemma RxMainOnce(z: Setup, sdu: bytes, n: Net, now: nat, env: R.MainEnv)
    ensures Inv(z, n) && Once(z, sdu, n) ==> Once(z, sdu, RxMain(z, n, now, env))
  {
    hide T.Inv, R.Inv, R.Main, DataOk, ReceiverOk, OriginOk, SenderOk, Matched, Chain, Awaits, Expecting, IsGrant, OneLeft;
    MainGrantsOnce(z.r, n.rx, now, env);
  }

  lemma ReceiverConfirmOnce(z: Setup, sdu: bytes, n: Net, now: nat)
    ensures Inv(z, n) && Once(z, sdu, n) ==> Once(z, sdu, ReceiverConfirm(n, now))
  {
    hide T.Inv, DataOk, ReceiverOk, OriginOk, SenderOk, Matched, Chain, Awaits, GrantLast, OneLeft;
  }

  lemma RxCancelOnce(z: Setup, sdu: bytes, n: Net)
    ensures Inv(z, n) && Once(z, sdu, n) ==> Once(z, sdu, n.(rx := R.Cancel(z.r, n.rx).0))
  {
    hide T.Inv, DataOk, ReceiverOk, OriginOk, SenderOk, Matched, Chain, Awaits, GrantLast, OneLeft;
  }

  /** A received frame grants nothing. */
  lemma FrameGrantsNothing(r: RxConnection, s: R.State, now: nat, f: R.CanFrame, env: R.RxEnv)
    ensures R.Inv(r, s) && Expecting(R.RxIndication(r, s, now, f, env)) ==> Expecting(s)
  {
    hide ValidDl, CanDl, BlockCfs, SingleCheck, FirstCheck;
    if R.Inv(r, s) && s.sub == R.WaitConsecutive { R.ConsecutiveTakes(r, s.rxDl, s.rem, f); }
  }

  lemma HandedOnce(z: Setup, sdu: bytes, n: Net, now: nat, got: R.CanFrame, env: R.RxEnv)
    requires Inv(z, n) && Once(z, sdu, n) && n.data != []
    ensures Once(z, sdu, Handed(z, n, now, got, env))
  {
    hide T.Inv, R.Inv, DataOk, ReceiverOk, OriginOk, SenderOk, Matched, Chain, Awaits, Expecting, GrantLast, R.RxIndication, OneLeft;
    FrameGrantsNothing(z.r, n.rx, now, got, env);
  }

  lemma DeliverDataOnce(z: Setup, sdu: bytes, n: Net, now: nat, got: R.CanFrame, env: R.RxEnv)
    requires Inv(z, n) && Once(z, sdu, n) && n.data != [] && OnWire(n.data[0].frame, got)
    ensures Once(z, sdu, DeliverData(z, n, now, got, env))
  {
    hide Inv, Awaits, Expecting, GrantLast, OnWire, OneLeft;
    ReceiverConfirmKeeps(z, n, now);
    ReceiverConfirmOnce(z, sdu, n, now);
    HandedOnce(z, sdu, if z.fakeAtReceiver then ReceiverConfirm(n, now) else n, now, got, env);
  }

  // ----- Runs -------------------------------------------------------------------------------------------

  lemma StepOnce(z: Setup, sdu: bytes, n: Net, e: Event)
    requires Inv(z, n) && Once(z, sdu, n) && Step(z, n, e).requests in {[], [sdu]}
    ensures Once(z, sdu, Step(z, n, e))
  {
    hide Inv, Once, OnWire;
    match e
    case ERequest(now, request) => RequestOnce(z, sdu, n, now, request);
    case ECancel => CancelOnce(z, sdu, n);
    case ETxMain(now, env) => TxMainOnce(z, sdu, n, now, env);
    case ETxConfirm(now) => SenderConfirmOnce(z, sdu, n, now);
    case EData(now, got, env) =>
      if n.data != [] && OnWire(n.data[0].frame, got) { DeliverDataOnce(z, sdu, n, now, got, env); }
    case ERxMain(now, env) => RxMainOnce(z, sdu, n, now, env);
    case ERxConfirm(now) => ReceiverConfirmOnce(z, sdu, n, now);
    case ERxCancel => RxCancelOnce(z, sdu, n);
    case EFlow(now, got) => DeliverFlowOnce(z, sdu, n, now, got);
  }

  lemma StartsOnce(z: Setup, sdu: bytes)
    requires z.Valid() && z.fakeAtSender && OneLeft(z.c, sdu)
    ensures Once(z, sdu, Init())
  {
  }

  lemma {:induction false} RunOnce(z: Setup, sdu: bytes, events: seq<Event>)
    requires z.Valid() && z.fakeAtSender && OneLeft(z.c, sdu) && Run(z, events).requests in {[], [sdu]}
    ensures Once(z, sdu, Run(z, events))
  {
    hide Inv, Once, Step, Accepted, OneLeft;
    if events == [] {
      StartsOnce(z, sdu);
    } else {
      var before, e := Run(z, events[..|events| - 1]), events[|events| - 1];
      StepRecords(z, before, e);
      Shorter(before.requests, Accepted(z, before, e), sdu);
      RunOnce(z, sdu, events[..|events| - 1]);
      StepOnce(z, sdu, before, e);
    }
  }

  lemma Shorter(a: seq<bytes>, b: seq<bytes>, sdu: bytes)
    requires a + b in {[], [sdu]}
    ensures a in {[], [sdu]}
  {
    if a != [] {
      assert (a + b)[0] == a[0] && |a + b| == 1;
      assert a == [sdu];
    }
  }

  /** A run that transfers such an SDU alone does not stall when the sender fakes its confirmations. */
  lemma OneConsecutiveNeverStalls(z: Setup, sdu: bytes, events: seq<Event>)
    requires z.Valid() && z.fakeAtSender && OneLeft(z.c, sdu) && Run(z, events).requests == [sdu]
    ensures !Stalled(Run(z, events))
  {
    hide OneLeft, Step, T.Inv, DataOk, ReceiverOk, OriginOk, SenderOk, Matched, Chain, ValidDl, BlockCfs;
    RunOnce(z, sdu, events);
  }
}
