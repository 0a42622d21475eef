/** Which SDUs a receiver in front of the AnchorCom buffer can deliver: the admitted ones but those of full capacity. */
module CanTpCapacity {
  import opened Bytes
  import opened CanTpConfig
  import opened CanTpFrames
  import opened CanTpSegments
  import opened CanTpNet
  import opened CanTpLockstep
  import opened CanTpGrant
  import opened CanTpCompletes
  import R = CanTpReceiver

  /** The write position of the buffer is a uint16. */
  const MAX_CAPACITY: nat := 0xFFFF

  ghost predicate Attained(cap: nat, r: RxConnection, n: Node)
    requires r.Valid() && cap > 0
  {
    exists events :: CanTpGrant.Run(cap, r, events) == n
  }

  lemma Attain(cap: nat, r: RxConnection, n: Node, e: CanTpGrant.Event)
    requires r.Valid() && cap > 0 && Attained(cap, r, n)
    ensures CanTpGrant.Inv(cap, r, n) && R.Inv(r, n.s) && n.offset <= cap
    ensures Attained(cap, r, CanTpGrant.Step(cap, r, n, e))
  {
    hide CanTpGrant.Step, CanTpGrant.Inv;
    var events :| CanTpGrant.Run(cap, r, events) == n;
    InnerInv(cap, r, n);
    var longer := events + [e];
    assert longer[..|longer| - 1] == events;
    assert CanTpGrant.Run(cap, r, longer) == CanTpGrant.Step(cap, r, n, e);
  }

  /** A sender that matches the receiver, with the longest frames. */
  function Peer(r: RxConnection): Setup {
    Setup(TxConnection(64, r.addressFormat, r.address, r.padding, r.fill, r.functional, false, false, 0, 0, 1, 0), r, true, true)
  }

  /** A reception of this SDU is open and still fits. */
  ghost predicate Open(cap: nat, r: RxConnection, sdu: bytes, n: Node) {
    && r.Valid() && |sdu| < cap && Attained(cap, r, n) && CanTpGrant.Inv(cap, r, n) && !r.functional && Accepts(Peer(r).c, |sdu|)
    && n.s.sub in {R.SendFlowControl, R.WaitConsecutive} && n.s.flow != R.OVERFLOW && !n.s.locked
    && Tracks(Peer(r).c, sdu, n.s, n.s.cfs)
  }

  ghost predicate Delivers(cap: nat, r: RxConnection, sdu: bytes) {
    r.Valid() && cap > 0 && exists n :: Attained(cap, r, n) && sdu in n.s.delivered
  }

  lemma PeerValid(r: RxConnection)
    requires r.Valid()
    ensures Peer(r).Valid()
  {
  }

  /** The free buffer covers the rest of the SDU. */
  lemma RoomLeft(cap: nat, r: RxConnection, sdu: bytes, n: Node)
    requires Open(cap, r, sdu, n)
    ensures R.Inv(r, n.s) && n.offset <= cap && cap - n.offset >= n.s.rem > 0 && n.s.rxDl == 64
  {
    hide Attained, Offset, ValidDl, BlockCfs;
  }

  lemma GrantBlock(cap: nat, r: RxConnection, sdu: bytes, n: Node) returns (n': Node)
    requires Open(cap, r, sdu, n) && n.s.sub == R.SendFlowControl
    ensures Open(cap, r, sdu, n') && n'.s.sub == R.WaitConsecutive && n'.s.rem == n.s.rem
  {
    hide Attained, CanTpGrant.Inv, R.Inv, R.Main, R.TxConfirmation, Accepts, FlowControlFrame;
    RoomLeft(cap, r, sdu, n);
    AsksToo(r, n.s);
    ReceiverGrants(r, n.s, cap - n.offset);
    var m := CanTpGrant.EMain(n.s.initialTicks, true);
    Attain(cap, r, n, m);
    var n1 := CanTpGrant.Step(cap, r, n, m);
    var c := CanTpGrant.EConfirm(n.s.initialTicks);
    Attain(cap, r, n1, c);
    n' := CanTpGrant.Step(cap, r, n1, c);
    Attain(cap, r, n', c);
  }

  lemma AsksToo(r: RxConnection, s: R.State)
    requires R.Inv(r, s) && s.sub == R.SendFlowControl && s.flow != R.OVERFLOW
    ensures s.flow == R.WAIT
  {
  }

  /** The segment is asked for, and fits. */
  lemma Asked(cap: nat, r: RxConnection, n: Node, got: R.CanFrame)
    requires CanTpGrant.Inv(cap, r, n) && !r.functional && n.s.sub == R.WaitConsecutive && FrameType(r.A(), got) == CONSECUTIVE
    requires ConsecutiveCheck(r, n.s.rxDl, n.s.rem, got).ok && ConsecutiveCheck(r, n.s.rxDl, n.s.rem, got).low == n.s.sn
    ensures FrameStep(cap, r, n, n.s.initialTicks, got).s == R.RxIndication(r, n.s, n.s.initialTicks, got, R.RxEnv(R.Reject, true))
  {
    SegmentFits(cap, r, n, n.s.initialTicks, got);
    hide CanTpGrant.Inv, R.RxIndication, ConsecutiveCheck;
  }

  lemma TakeFrame(cap: nat, r: RxConnection, sdu: bytes, n: Node) returns (n': Node)
    requires Open(cap, r, sdu, n) && n.s.sub == R.WaitConsecutive
    ensures Attained(cap, r, n')
    ensures sdu in n'.s.delivered || (Open(cap, r, sdu, n') && n'.s.rem < n.s.rem)
  {
    hide Attained, CanTpGrant.Inv, R.Inv, R.RxIndication, Accepts, OnWire, Frame, FrameStep, ConsecutiveCheck;
    var z := Peer(r);
    PeerValid(r);
    RoomLeft(cap, r, sdu, n);
    assert HasFrame(z.c, |sdu|, n.s.cfs + 1);
    var got := FrameOnWire(z.c, sdu, n.s.cfs + 1);
    assert Expects(z, sdu, n.s.cfs, n.s, got);
    NextSegment(z, sdu, n.s, got);
    Asked(cap, r, n, got);
    ReceiverTakes(z, sdu, n.s, got);
    var e := CanTpGrant.EFrame(n.s.initialTicks, got);
    Attain(cap, r, n, e);
    n' := CanTpGrant.Step(cap, r, n, e);
    Attain(cap, r, n', e);
  }

  lemma {:induction false} Complete(cap: nat, r: RxConnection, sdu: bytes, n: Node)
    requires Open(cap, r, sdu, n)
    ensures Delivers(cap, r, sdu)
    decreases n.s.rem, n.s.sub == R.SendFlowControl
  {
    hide Attained, CanTpGrant.Inv, Tracks, Accepts;
    if n.s.sub == R.SendFlowControl {
      var n1 := GrantBlock(cap, r, sdu, n);
      Complete(cap, r, sdu, n1);
    } else {
      var n1 := TakeFrame(cap, r, sdu, n);
      if sdu !in n1.s.delivered { Complete(cap, r, sdu, n1); }
    }
  }

  /** The first frame opens the reception. */
  lemma Start(cap: nat, r: RxConnection, sdu: bytes) returns (n: Node)
    requires r.Valid() && !r.functional && |sdu| < cap && Accepts(Peer(r).c, |sdu|) && IsFirst(TxPci(Peer(r).c, |sdu|))
    ensures Open(cap, r, sdu, n)
  {
    hide Attained, CanTpGrant.Inv, Accepts, OnWire, FirstFrame, FirstPayload;
    var z := Peer(r);
    PeerValid(r);
    AtStart(cap, r);
    FullFirst(z.c, sdu);
    var f: R.CanFrame := FirstFrame(z.c, sdu);
    FirstFrameDecodes(z.c, r, sdu, f);
    var e := CanTpGrant.EFrame(0, f);
    var n0 := Node(R.Init(), 0);
    Attain(cap, r, n0, e);
    n := CanTpGrant.Step(cap, r, n0, e);
    Opens(cap, r, sdu, f);
    Attain(cap, r, n, e);
  }

  lemma FullFirst(c: TxConnection, sdu: bytes)
    requires c.Valid() && IsFirst(TxPci(c, |sdu|))
    ensures |FirstFrame(c, sdu)| == c.txDl && OnWire(FirstFrame(c, sdu), FirstFrame(c, sdu))
  {
    assert |FirstFrame(c, sdu)| == c.txDl;
    FullOnWire(FirstFrame(c, sdu), FirstFrame(c, sdu));
  }

  lemma AtStart(cap: nat, r: RxConnection)
    requires r.Valid() && cap > 0
    ensures Attained(cap, r, Node(R.Init(), 0)) && R.Inv(r, R.Init())
  {
    assert CanTpGrant.Run(cap, r, []) == Node(R.Init(), 0);
  }

  lemma Opens(cap: nat, r: RxConnection, sdu: bytes, f: R.CanFrame)
    requires r.Valid() && !r.functional && |sdu| < cap && Accepts(Peer(r).c, |sdu|) && IsFirst(TxPci(Peer(r).c, |sdu|))
    requires FrameType(r.A(), f) == FIRST && FirstCheck(r, f).ok && FirstCheck(r, f).sduLength == |sdu| && |f| == 64
    requires f[FirstCheck(r, f).offset..] == sdu[..FirstPayload(Peer(r).c, |sdu|)]
    requires |f| - FirstCheck(r, f).offset == FirstPayload(Peer(r).c, |sdu|)
    ensures R.Inv(r, R.Init())
    ensures var s := FrameStep(cap, r, Node(R.Init(), 0), 0, f).s;
            && s.sub == R.SendFlowControl && s.flow == R.WAIT && !s.locked && s.cfs == 0
            && Tracks(Peer(r).c, sdu, s, 0)
  {
    assert Offset(Peer(r).c, |sdu|, 0) == FirstPayload(Peer(r).c, |sdu|);
    hide FirstCheck, FirstPayload, Accepts, TxPci, ValidDl, Offset;
    R.FirstLeavesRemainder(r, f);
  }

  /** A short SDU goes in one frame. */
  lemma InOneFrame(cap: nat, r: RxConnection, sdu: bytes)
    requires r.Valid() && |sdu| < cap && Accepts(Peer(r).c, |sdu|) && IsSingle(TxPci(Peer(r).c, |sdu|))
    ensures Delivers(cap, r, sdu)
  {
    hide Attained, CanTpGrant.Inv, Accepts, OnWire, SingleFrame, SingleCheck, Frame;
    var z := Peer(r);
    PeerValid(r);
    AtStart(cap, r);
    WholeFrame(z.c, sdu);
    var got := FrameOnWire(z.c, sdu, 0);
    SingleFrameDecodes(z.c, r, sdu, got);
    var e := CanTpGrant.EFrame(0, got);
    Attain(cap, r, Node(R.Init(), 0), e);
    assert sdu in CanTpGrant.Step(cap, r, Node(R.Init(), 0), e).s.delivered;
  }

  // ----- Nothing else is delivered ------------------------------------------------------------------------

  /** A functional receiver delivers single frames only. */
  ghost predicate Short(r: RxConnection, delivered: seq<bytes>)
    requires r.Valid()
  {
    r.functional ==> forall d :: d in delivered ==> |d| + r.A() + 2 <= MAX_NPDU
  }

  lemma ShortFrames(r: RxConnection, s: R.State, now: nat, f: R.CanFrame, env: R.RxEnv)
    requires R.Inv(r, s) && Short(r, s.delivered)
    ensures Short(r, R.RxIndication(r, s, now, f, env).delivered)
  {
    hide R.RxFirst, R.RxConsecutive;
  }

  lemma ShortStep(cap: nat, r: RxConnection, n: Node, e: CanTpGrant.Event)
    requires CanTpGrant.Inv(cap, r, n) && Short(r, n.s.delivered)
    ensures Short(r, CanTpGrant.Step(cap, r, n, e).s.delivered)
  {
    hide R.RxIndication, R.Main, Short, SingleCheck, FirstCheck, ConsecutiveCheck, R.Inv, StartOfReception, CopyFits;
    InnerInv(cap, r, n);
    match e
    case EFrame(now, f) =>
      forall start, copyOk ensures Short(r, R.RxIndication(r, n.s, now, f, R.RxEnv(start, copyOk)).delivered) {
        ShortFrames(r, n.s, now, f, R.RxEnv(start, copyOk));
      }
    case EMain(now, lowerOk) => R.MainEffect(r, n.s, now, R.MainEnv(Some(cap - n.offset), lowerOk));
    case EConfirm(now) =>
    case ECancel =>
  }

  lemma InnerInv(cap: nat, r: RxConnection, n: Node)
    requires CanTpGrant.Inv(cap, r, n)
    ensures R.Inv(r, n.s) && r.Valid() && n.offset <= cap
  {
  }

  lemma {:induction false} ShortRun(cap: nat, r: RxConnection, events: seq<CanTpGrant.Event>)
    requires r.Valid() && cap > 0
    ensures Short(r, CanTpGrant.Run(cap, r, events).s.delivered)
  {
    hide CanTpGrant.Inv, CanTpGrant.Step;
    if events != [] {
      ShortRun(cap, r, events[..|events| - 1]);
      ShortStep(cap, r, CanTpGrant.Run(cap, r, events[..|events| - 1]), events[|events| - 1]);
    }
  }

  lemma OnlyFitting(cap: nat, r: RxConnection, sdu: bytes)
    requires r.Valid() && cap > 0 && Delivers(cap, r, sdu)
    ensures |sdu| < cap && (r.functional ==> |sdu| + r.A() + 2 <= MAX_NPDU)
  {
    var n :| Attained(cap, r, n) && sdu in n.s.delivered;
    var events :| CanTpGrant.Run(cap, r, events) == n;
    ShortRun(cap, r, events);
    assert CanTpGrant.Inv(cap, r, CanTpGrant.Run(cap, r, events));
  }

  /** What the matching sender accepts, and when it needs one frame only. */
  lemma PeerAccepts(r: RxConnection, sdu: bytes)
    requires r.Valid() && 0 < |sdu| <= MAX_CAPACITY && (r.functional ==> |sdu| + r.A() + 2 <= MAX_NPDU)
    ensures Peer(r).c.Valid() && Accepts(Peer(r).c, |sdu|)
    ensures IsSingle(TxPci(Peer(r).c, |sdu|)) || (IsFirst(TxPci(Peer(r).c, |sdu|)) && !r.functional)
  {
  }

  /**
   * Capacity: an SDU that start of reception admits is delivered in some run if and only if it is shorter than the
   * capacity, because one byte is reserved, and, on a functional connection, fits one frame.
   */
  lemma DeliveredExactlyBelowCapacity(cap: nat, r: RxConnection, sdu: bytes)
    requires r.Valid() && 0 < |sdu| <= cap <= MAX_CAPACITY
    ensures StartOfReception(cap, |sdu|).Grant?
    ensures Delivers(cap, r, sdu) <==> |sdu| < cap && (r.functional ==> |sdu| + r.A() + 2 <= MAX_NPDU)
  {
    hide Attained, Accepts, TxPci, Delivers;
    if Delivers(cap, r, sdu) {
      OnlyFitting(cap, r, sdu);
    } else if |sdu| < cap && (r.functional ==> |sdu| + r.A() + 2 <= MAX_NPDU) {
      PeerAccepts(r, sdu);
      if IsSingle(TxPci(Peer(r).c, |sdu|)) {
        InOneFrame(cap, r, sdu);
      } else {
        var n := Start(cap, r, sdu);
        Complete(cap, r, sdu, n);
      }
    }
  }
}
