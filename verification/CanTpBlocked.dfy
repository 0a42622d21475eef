/**
 * A receive channel that is blocked for good. A first or single frame that arrives while the confirmation of the
 * channel's own flow control frame is outstanding moves the channel on, but leaves its entry in the confirmation table.
 * The confirmation then finds the wrong state, nothing else clears the entry, and no flow control is ever sent again.
 */
module CanTpBlocked {
  import opened Bytes
  import opened CanTpConfig
  import opened CanTpFrames
  import opened CanTpSegments
  import opened CanTpNet
  import opened CanTpOneConsecutive
  import opened CanTpStall
  import opened CanTpCompletes
  import T = CanTpSender
  import R = CanTpReceiver

  // ----- The receive channel ----------------------------------------------------------------------------

  /** The frame starts a reception on this connection, whatever the upper layer answers. */
  predicate Starts(r: RxConnection, f: bytes)
    requires r.Valid()
  {
    var t := FrameType(r.A(), f);
    (t == SINGLE && SingleCheck(r, f).ok) || (t == FIRST && !r.functional && FirstCheck(r, f).ok)
  }

  /** An SDU that a single frame can carry. */
  predicate Short(r: RxConnection, d: bytes)
    requires r.Valid()
  {
    |d| + r.A() + 1 <= MAX_NPDU
  }

  ghost function After(r: RxConnection, s: R.State, events: seq<R.Event>): (s': R.State)
    requires R.Inv(r, s)
    ensures R.Inv(r, s')
  {
    if events == [] then s
    else
      var before := After(r, s, events[..|events| - 1]);
      R.StepKeeps(r, before, events[|events| - 1]);
      R.Step(r, before, events[|events| - 1])
  }

  /** The flow control frames sent on the way. */
  ghost function Answers(r: RxConnection, s: R.State, events: seq<R.Event>): seq<bytes>
    requires R.Inv(r, s)
  {
    if events == [] then []
    else
      var before, e := After(r, s, events[..|events| - 1]), events[|events| - 1];
      Answers(r, s, events[..|events| - 1])
        + if e.EMain? && R.Main(r, before, e.now, e.menv).frame.Some? then [R.Main(r, before, e.now, e.menv).frame.value] else []
  }

  /** What one call can do to a blocked channel. */
  ghost predicate StaysBlocked(r: RxConnection, s: R.State, s': R.State)
    requires r.Valid()
  {
    R.Blocked(s') && (s'.delivered == s.delivered || exists d :: Short(r, d) && s'.delivered == s.delivered + [d])
  }

  /** A single frame ends what the channel was doing, and leaves the entry. */
  lemma SingleMoves(r: RxConnection, s: R.State, now: nat, f: R.CanFrame, env: R.RxEnv)
    requires r.Valid() && SingleCheck(r, f).ok
    ensures var s', x := R.RxSingle(r, s, now, f, env), SingleCheck(r, f);
            && s'.sub == R.Idle && s'.locked == s.locked && x.offset + x.sduLength <= |f|
            && (s'.delivered == s.delivered
                || (s'.delivered == s.delivered + [f[x.offset..x.offset + x.sduLength]] && r.A() + 1 <= x.offset))
  {
  }

  /** So does a first frame, unless the upper layer goes along. */
  lemma FirstMoves(r: RxConnection, s: R.State, now: nat, f: R.CanFrame, env: R.RxEnv)
    requires r.Valid() && FirstCheck(r, f).ok
    ensures var s' := R.RxFirst(r, s, now, f, env);
            s'.sub in {R.Idle, R.SendFlowControl} && s'.locked == s.locked && s'.delivered == s.delivered
  {
    hide FirstCheck, ValidDl, R.StartReception;
    R.FirstLeavesRemainder(r, f);
    var x := FirstCheck(r, f);
    var s1 := R.Restart(s).(len := x.sduLength, rxDl := |f|, initialTicks := now, sub := R.Idle, flow := R.WAIT);
    R.StartEffect(s1, f[x.offset..], x.sduLength - (|f| - x.offset), env);
  }

  lemma ConsecutiveMoves(r: RxConnection, s: R.State, now: nat, f: R.CanFrame, env: R.RxEnv)
    requires R.Inv(r, s)
    ensures var s' := R.RxConsecutive(r, s, now, f, env);
            if s.sub == R.WaitConsecutive then s'.sub != R.WaitFcConfirmation && s'.locked == s.locked else s' == s
  {
    hide ConsecutiveCheck, ValidDl, BlockCfs;
  }

  /** A frame that starts no reception leaves a channel alone that is not waiting for data. */
  lemma FrameMoves(r: RxConnection, s: R.State, now: nat, f: R.CanFrame, env: R.RxEnv)
    requires R.Inv(r, s)
    ensures var s' := R.RxIndication(r, s, now, f, env);
            && s'.locked == s.locked
            && (Starts(r, f) ==> s'.sub in {R.Idle, R.SendFlowControl})
            && (!Starts(r, f) && s.sub != R.WaitConsecutive ==> s' == s)
            && (Starts(r, f) ==> s'.delivered == s.delivered || exists d :: Short(r, d) && s'.delivered == s.delivered + [d])
  {
    hide R.RxSingle, R.RxFirst, R.RxConsecutive, FirstCheck, SingleCheck, R.Inv, FrameType;
    R.ValidConnection(r, s);
    var t := FrameType(r.A(), f);
    if t == SINGLE {
      SingleOrError(r, s, now, f, env);
    } else if t == FIRST && !r.functional {
      FirstOrError(r, s, now, f, env);
    } else if t == CONSECUTIVE && !r.functional {
      ConsecutiveMoves(r, s, now, f, env);
    }
  }

  lemma SingleOrError(r: RxConnection, s: R.State, now: nat, f: R.CanFrame, env: R.RxEnv)
    requires r.Valid()
    ensures var s', x := R.RxSingle(r, s, now, f, env), SingleCheck(r, f);
            && s'.locked == s.locked
            && (x.ok ==> s'.sub == R.Idle
                         && (s'.delivered == s.delivered || exists d :: Short(r, d) && s'.delivered == s.delivered + [d]))
            && (!x.ok && s.sub != R.WaitConsecutive ==> s' == s)
  {
    var x := SingleCheck(r, f);
    if x.ok {
      SingleMoves(r, s, now, f, env);
      assert R.RxSingle(r, s, now, f, env).delivered == s.delivered || Short(r, f[x.offset..x.offset + x.sduLength]);
      hide SingleCheck, R.RxSingle;
    }
  }

  lemma FirstOrError(r: RxConnection, s: R.State, now: nat, f: R.CanFrame, env: R.RxEnv)
    requires r.Valid()
    ensures var s', x := R.RxFirst(r, s, now, f, env), FirstCheck(r, f);
            && s'.locked == s.locked
            && (x.ok ==> s'.sub in {R.Idle, R.SendFlowControl} && s'.delivered == s.delivered)
            && (!x.ok && s.sub != R.WaitConsecutive ==> s' == s)
  {
    hide FirstCheck, R.StartReception;
    if FirstCheck(r, f).ok { FirstMoves(r, s, now, f, env); }
  }

  lemma BlockedStep(r: RxConnection, s: R.State, e: R.Event)
    requires R.Inv(r, s) && R.Blocked(s)
    ensures StaysBlocked(r, s, R.Step(r, s, e)) && (e.EMain? ==> R.Main(r, s, e.now, e.menv).frame.None?)
  {
    hide R.RxIndication, ValidDl, BlockCfs;
    match e
    case EFrame(now, f, env) => FrameMoves(r, s, now, f, env);
    case _ =>
  }

  /** Whatever happens afterwards, it sends no flow control, so it receives nothing that needs more than one frame. */
  lemma {:induction false} BlockedForGood(r: RxConnection, s: R.State, events: seq<R.Event>)
    requires R.Inv(r, s) && R.Blocked(s)
    ensures var s' := After(r, s, events);
            && R.Blocked(s') && Answers(r, s, events) == [] && |s.delivered| <= |s'.delivered|
            && (forall i :: 0 <= i < |s.delivered| ==> s'.delivered[i] == s.delivered[i])
            && (forall i :: |s.delivered| <= i < |s'.delivered| ==> Short(r, s'.delivered[i]))
  {
    hide R.Blocked, R.Step, R.Main, R.Inv;
    if events != [] {
      BlockedForGood(r, s, events[..|events| - 1]);
      BlockedStep(r, After(r, s, events[..|events| - 1]), events[|events| - 1]);
    }
  }

  /** A frame with these properties arrives at position j of the run while the confirmation is outstanding. */
  ghost predicate OvertakenAt(r: RxConnection, events: seq<R.Event>, j: nat)
    requires r.Valid() && R.Inv(r, R.Init())
  {
    && j < |events| && events[j].EFrame? && Starts(r, events[j].frame)
    && R.Awaiting(After(r, R.Init(), events[..j]))
  }

  /** What turns a locked wait into a blocked channel. */
  lemma LockedStep(r: RxConnection, s: R.State, e: R.Event)
    requires R.Inv(r, s)
    ensures R.Blocked(R.Step(r, s, e)) <==> R.Blocked(s) || (R.Awaiting(s) && e.EFrame? && Starts(r, e.frame))
  {
    hide R.RxIndication, R.Main, Starts, R.Inv;
    R.LockedMeans(r, s);
    match e
    case EFrame(now, f, env) => FrameMoves(r, s, now, f, env);
    case EMain(now, env) => MainMoves(r, s, now, env);
    case _ =>
  }

  lemma MainMoves(r: RxConnection, s: R.State, now: nat, env: R.MainEnv)
    requires R.Inv(r, s)
    ensures var s' := R.Main(r, s, now, env).s;
            && (s'.sub == R.WaitConsecutive ==> s.sub == R.WaitConsecutive)
            && (s.locked && s.sub != R.WaitFcConfirmation ==> s'.locked && (s.sub != R.WaitConsecutive ==> s' == s))
            && (!s.locked || s.sub == R.WaitFcConfirmation ==> (s'.locked ==> s'.sub == R.WaitFcConfirmation))
  {
    hide R.Negotiate, BlockCfs, ValidDl, FlowControlFrame;
    if s.sub == R.SendFlowControl {
      NegotiateMoves(r, s.(blockCfs := 0), env.free);
    }
  }

  lemma NegotiateMoves(r: RxConnection, s: R.State, free: Option<nat>)
    requires r.Valid() && ValidDl(s.rxDl)
    ensures var s' := R.Negotiate(r, s, free);
            s'.locked == s.locked && s'.sub == if free.None? then R.Idle else s.sub
  {
    hide BlockCfs;
  }

  /** A run blocks the channel if and only if somewhere a single or first frame overtook the confirmation. */
  lemma {:induction false} BlockedExactly(r: RxConnection, events: seq<R.Event>)
    requires r.Valid() && R.Inv(r, R.Init())
    ensures R.Blocked(After(r, R.Init(), events)) <==> exists j: nat :: OvertakenAt(r, events, j)
  {
    hide R.Step, R.Inv, Starts;
    if events != [] {
      var n := |events| - 1;
      var before := events[..n];
      BlockedExactly(r, before);
      LockedStep(r, After(r, R.Init(), before), events[n]);
      forall j: nat | j < n ensures OvertakenAt(r, before, j) <==> OvertakenAt(r, events, j) {
        assert before[..j] == events[..j] && before[j] == events[j];
      }
      if OvertakenAt(r, events, n) || (R.Blocked(After(r, R.Init(), events)) && !R.Blocked(After(r, R.Init(), before))) {
        assert OvertakenAt(r, events, n);
      }
    }
  }

  // ----- Both ends ----------------------------------------------------------------------------------------

  /** With the fake at the receiver, a data frame is never handed over before the outstanding confirmation. */
  ghost predicate ConfirmedFirst(n: Net) {
    n.rx.locked ==> n.rx.sub == R.WaitFcConfirmation && n.rxPending
  }

  /** The channel never had anything to confirm. */
  ghost predicate Untouched(n: Net) {
    n.rx.sub == R.Idle && !n.rx.locked
  }

  lemma ConfirmedHere(s: R.State, now: nat)
    ensures (s.locked ==> s.sub == R.WaitFcConfirmation) ==> !R.TxConfirmation(s, now).locked
  {
  }

  lemma CancelMoves(r: RxConnection, s: R.State)
    requires R.Inv(r, s) && (s.locked ==> s.sub == R.WaitFcConfirmation)
    ensures var s' := R.Cancel(r, s).0; s'.locked ==> s'.sub == R.WaitFcConfirmation && s == s'
  {
  }

  lemma ConfirmedFirstStep(z: Setup, n: Net, e: Event)
    requires Inv(z, n) && z.fakeAtReceiver && ConfirmedFirst(n)
    ensures ConfirmedFirst(Step(z, n, e))
  {
    hide Inv, T.Main, T.Inv, R.Main, R.Inv, R.RxIndication, R.TxConfirmation, R.Cancel, T.FlowControl, T.TxConfirmation, OnWire;
    SenderInv(z, n);
    match e
    case EData(now, got, env) =>
      ConfirmedHere(n.rx, now);
      R.ConfirmKeeps(z.r, n.rx, now);
      FrameMoves(z.r, if n.rxPending then R.TxConfirmation(n.rx, now) else n.rx, now, got, env);
    case ERxMain(now, env) => MainMoves(z.r, n.rx, now, env); MainSends(z.r, n.rx, now, env);
    case ERxConfirm(now) => ConfirmedHere(n.rx, now);
    case ERxCancel => CancelMoves(z.r, n.rx);
    case _ =>
  }

  /** The entry is set together with a frame for the bus. */
  lemma MainSends(r: RxConnection, s: R.State, now: nat, env: R.MainEnv)
    requires R.Inv(r, s)
    ensures var o := R.Main(r, s, now, env); o.s.locked && !s.locked ==> o.frame.Some?
  {
    hide R.Negotiate, BlockCfs, ValidDl, FlowControlFrame;
    if s.sub == R.SendFlowControl {
      NegotiateMoves(r, s.(blockCfs := 0), env.free);
    }
  }

  /** A receiver that hears nothing but single frames has nothing to confirm. */
  lemma UntouchedStep(z: Setup, n: Net, e: Event)
    requires Inv(z, n) && Untouched(n) && (z.c.functional || n.data == [])
    ensures Untouched(Step(z, n, e))
  {
    hide Inv, T.Main, T.Inv, R.Inv, R.RxIndication, T.FlowControl, T.TxConfirmation, OnWire;
    SenderInv(z, n);
    match e
    case EData(now, got, env) =>
      if n.data != [] && OnWire(n.data[0].frame, got) { SingleOnly(z, n, now, got, env); }
    case _ =>
  }

  /** A functional request is a single frame. */
  lemma SingleOnly(z: Setup, n: Net, now: nat, got: R.CanFrame, env: R.RxEnv)
    requires Inv(z, n) && Untouched(n) && z.c.functional && n.data != [] && OnWire(n.data[0].frame, got)
    ensures Untouched(Step(z, n, EData(now, got, env)))
  {
    hide T.Inv, OnWire, OriginOk, ReceiverOk, SenderOk, R.RxSingle, SingleFrame, TxPci, SingleCheck;
    var p := n.data[0];
    assert PacketOk(z.c, n.requests, p);
    var sdu := n.requests[p.tag.msg];
    FunctionalIsSingle(z.c, |sdu|);
    SingleFrameDecodes(z.c, z.r, sdu, got);
    SingleMoves(z.r, n.rx, now, got, env);
  }

  lemma {:induction false} NeverBlocked(z: Setup, events: seq<Event>)
    requires z.Valid() && (z.fakeAtReceiver || z.c.functional || z.c.csTicks == 0)
    ensures !R.Blocked(Run(z, events).rx)
    ensures z.fakeAtReceiver ==> ConfirmedFirst(Run(z, events))
    ensures z.c.functional || z.c.csTicks == 0 ==> Untouched(Run(z, events))
  {
    hide Inv, Step;
    if events != [] {
      var before, e := events[..|events| - 1], events[|events| - 1];
      NeverBlocked(z, before);
      if z.fakeAtReceiver { ConfirmedFirstStep(z, Run(z, before), e); }
      if z.c.csTicks == 0 { SilentRun(z, before); }
      if z.c.functional || z.c.csTicks == 0 { UntouchedStep(z, Run(z, before), e); }
    }
  }

  /** Every physical connection has an SDU that needs one consecutive frame. */
  lemma OneFrameSdu(z: Setup) returns (sdu: bytes)
    requires z.Valid() && !z.c.functional && z.c.csTicks > 0
    ensures Multi(z, sdu) && OneLeft(z.c, sdu)
  {
    sdu := Fill(if z.c.txDl > DEFAULT_CAN_DL then z.c.txDl - z.c.A() - 1 else 8 - z.c.A(), 0);
  }

  /** The grant is on its way, and the receiver waits for the confirmation of it. */
  ghost predicate Outstanding(z: Setup, sdu: bytes, n: Net)
    requires z.Valid()
  {
    && Reachable(z, n) && Inv(z, n) && n.requests == [sdu] && n.seen == Tag(0, 0)
    && n.rx.sub == R.WaitFcConfirmation && n.rx.locked
  }

  /** The sender has its grant although the receiver has not seen the confirmation. */
  lemma GrantTaken(z: Setup, sdu: bytes) returns (n: Net)
    requires Multi(z, sdu)
    ensures Outstanding(z, sdu, n) && n.data == [] && n.tx.sub == T.SendConsecutive && n.tx.initialTicks == 0
    ensures n.tx.stmin.Some? && n.tx.stmin.value < TICKS && Delay(n.tx) == 0
    ensures n.tx.rem == |sdu| - FirstPayload(z.c, |sdu|)
  {
    hide Inv, Multi, FlowControlFrame, OnWire, Accepts, TxPci, FirstPayload, T.Inv, R.Inv, T.FlowControl, T.TxConfirmation,
         FrameType, BlockCfs, T.STminTicks, Reachable;
    Parts(z, sdu);
    var n1 := BringFirstAcross(z, sdu);
    var n2 := Granted(z, sdu, n1, n1.rx.rem);
    ReachableStep(z, n2, ETxConfirm(0));
    var n3 := Step(z, n2, ETxConfirm(0));
    SenderHolds(z, sdu, n2);
    FirstConfirmed(z.c, n2.tx);
    var got := ShortOnWire(z.r, n2.rx.bs);
    ReachableStep(z, n3, EFlow(0, got));
    SenderHolds(z, sdu, n3);
    SenderTakesGrant(z, n3.tx, n2.rx.bs, got);
    n := Step(z, n3, EFlow(0, got));
    ReachableStep(z, n, EFlow(0, got));
  }

  /** The sender finishes; its last frame is ignored by a receiver that still waits for the confirmation. */
  lemma SenderFinishes(z: Setup, sdu: bytes) returns (n: Net)
    requires Multi(z, sdu) && OneLeft(z.c, sdu) && !z.fakeAtReceiver
    ensures Reachable(z, n) && Inv(z, n) && n.tx.sub == T.Idle && !n.tx.locked && n.data == []
    ensures n.rx.sub == R.WaitFcConfirmation && n.rx.locked
  {
    hide Inv, Multi, OneLeft, OnWire, Accepts, TxPci, FirstPayload, T.Inv, R.Inv, T.Main, T.TxConfirmation, R.RxIndication,
         Frame, HasFrame, Reachable;
    var n1 := GrantTaken(z, sdu);
    Parts(z, sdu);
    LastOne(z.c, sdu, n1.tx);
    SenderHolds(z, sdu, n1);
    SenderSends(z.c, n1.tx);
    ReachableStep(z, n1, ETxMain(0, Rest(n1.tx)));
    var n2 := Step(z, n1, ETxMain(0, Rest(n1.tx)));
    assert n2.data == [Packet(Frame(z.c, sdu, n1.tx.cfs + 1), Tag(0, n1.sent))];
    ReachableStep(z, n2, ETxConfirm(0));
    SenderInv(z, n2);
    SenderConfirmed(z.c, n2.tx, 0);
    var n3 := Step(z, n2, ETxConfirm(0));
    var got := FrameOnWire(z.c, sdu, n1.tx.cfs + 1);
    var d := EData(0, got, R.RxEnv(R.Reject, true));
    ReachableStep(z, n3, d);
    SecondFrame(z, n3, got);
    n := Step(z, n3, d);
    ReachableStep(z, n, d);
    IdleUnlocked(z, n);
  }

  lemma LastOne(c: TxConnection, sdu: bytes, tx: T.State)
    requires OneLeft(c, sdu) && tx.rem == |sdu| - FirstPayload(c, |sdu|)
    ensures tx.rem <= c.Payload()
  {
  }

  lemma IdleUnlocked(z: Setup, n: Net)
    requires Inv(z, n) && n.tx.sub == T.Idle
    ensures !n.tx.locked
  {
  }

  /** The next first frame overtakes the confirmation. */
  lemma NextBlocks(z: Setup, sdu: bytes, n: Net) returns (n': Net)
    requires Multi(z, sdu) && !z.fakeAtReceiver && Reachable(z, n) && Inv(z, n) && n.tx.sub == T.Idle && !n.tx.locked && n.data == []
    requires n.rx.sub == R.WaitFcConfirmation && n.rx.locked
    ensures Reachable(z, n') && R.Blocked(n'.rx)
  {
    hide Inv, Multi, OnWire, Accepts, TxPci, T.Inv, R.Inv, T.Main, R.RxIndication, FirstFrame, FirstPayload, Reachable,
         FirstCheck, FrameType;
    Parts(z, sdu);
    FirstSent(z.c, n.tx, sdu);
    var e := ERequest(0, Some(sdu));
    ReachableStep(z, n, e);
    var n1 := Step(z, n, e);
    ReachableStep(z, n1, ETxMain(0, Rest(n1.tx)));
    var n2 := Step(z, n1, ETxMain(0, Rest(n1.tx)));
    var got := FirstOnWire(z, sdu);
    assert n2.data[0].frame == FirstFrame(z.c, sdu);
    var d := EData(0, got, R.RxEnv(R.Reject, true));
    ReachableStep(z, n2, d);
    SenderInv(z, n2);
    FrameMoves(z.r, n2.rx, 0, got, d.rxEnv);
    n' := Step(z, n2, d);
  }

  lemma FirstOnWire(z: Setup, sdu: bytes) returns (got: R.CanFrame)
    requires Multi(z, sdu)
    ensures got == FirstFrame(z.c, sdu) && OnWire(FirstFrame(z.c, sdu), got) && Starts(z.r, got)
  {
    hide OnWire, FirstFrame, FirstPayload, FirstCheck, R.RxIndication;
    AtRest(z.r);
    FirstReceived(z, R.Init(), sdu);
    got := FirstFrame(z.c, sdu);
    FirstFrameDecodes(z.c, z.r, sdu, got);
  }

  /**
   * The exact condition: some run of two nodes blocks the receive channel if and only if the receiver lacks the fake Tx
   * confirmation on a physical connection that can send at all; and then already with an upper layer that always offers
   * exactly the rest of the SDU.
   */
  lemma BlocksExactly(z: Setup)
    requires z.Valid()
    ensures (exists events :: R.Blocked(Run(z, events).rx)) <==> !z.fakeAtReceiver && !z.c.functional && z.c.csTicks > 0
    ensures (exists n :: Reachable(z, n) && R.Blocked(n.rx)) <==> exists events :: R.Blocked(Run(z, events).rx)
  {
    hide R.Blocked, Multi, OneLeft, Reachable;
    if !z.fakeAtReceiver && !z.c.functional && z.c.csTicks > 0 {
      var sdu := OneFrameSdu(z);
      var n1 := SenderFinishes(z, sdu);
      var n := NextBlocks(z, sdu, n1);
      HonestIsARun(z, n);
    } else {
      forall events ensures !R.Blocked(Run(z, events).rx) { NeverBlocked(z, events); }
      forall n | Reachable(z, n) ensures !R.Blocked(n.rx) { HonestIsARun(z, n); }
    }
  }
}
