/**
 * A CanTp sender and a CanTp receiver joined by a lossless in-order bus, with CanIf below each of them.
 * Every interleaving of calls and deliveries is a run.
 */
module CanTpNet {
  import opened Bytes
  import opened CanTpConfig
  import opened CanTpFrames
  import opened CanTpSegments
  import T = CanTpSender
  import R = CanTpReceiver

  /** One connection, and for each end whether a received frame fakes the pending Tx confirmation. */
  datatype Setup = Setup(c: TxConnection, r: RxConnection, fakeAtSender: bool, fakeAtReceiver: bool) {
    ghost predicate Valid() {
      Matched(c, r) && (r.functional ==> c.functional)
    }
  }

  /** Which frame of which accepted request a packet is. */
  datatype Tag = NoTag | Tag(msg: nat, index: nat)

  datatype Packet = Packet(frame: bytes, tag: Tag)

  /**
   * Both channels, the frames in flight in either direction, and the pending flags of CanIf. The rest is
   * history: the accepted requests, the frames made of the latest one, the last data frame the receiver
   * saw, and for each delivered SDU the request it came from.
   */
  datatype Net = Net(
    tx: T.State, rx: R.State, data: seq<Packet>, fc: seq<bytes>, txPending: bool, rxPending: bool,
    requests: seq<bytes>, sent: nat, seen: Tag, origin: seq<nat>)

  function Init(): Net {
    Net(T.Init(), R.Init(), [], [], false, false, [], 0, NoTag, [])
  }

  datatype Event =
    | ERequest(now: nat, request: Option<bytes>)
    | ECancel
    | ETxMain(now: nat, txEnv: T.Env)
    | ETxConfirm(now: nat)
    | EData(now: nat, got: R.CanFrame, rxEnv: R.RxEnv)
    | ERxMain(now: nat, mainEnv: R.MainEnv)
    | ERxConfirm(now: nat)
    | ERxCancel
    | EFlow(now: nat, got: R.CanFrame)

  // ----- Steps --------------------------------------------------------------------------------------

  /** CanIf_TxConfirmation at the sender: only a pending confirmation reaches CanTp. */
  function SenderConfirm(z: Setup, n: Net, now: nat): Net
    requires z.c.Valid()
  {
    if n.txPending then n.(tx := T.TxConfirmation(z.c, n.tx, now), txPending := false) else n
  }

  function ReceiverConfirm(n: Net, now: nat): Net {
    if n.rxPending then n.(rx := R.TxConfirmation(n.rx, now), rxPending := false) else n
  }

  function Request(z: Setup, n: Net, now: nat, request: Option<bytes>): Net
    requires z.c.Valid()
  {
    var (s, ret) := T.Transmit(z.c, n.tx, now, request);
    if ret == Ok then n.(tx := s, requests := n.requests + [s.sdu], sent := 0) else n
  }

  function TxMain(z: Setup, n: Net, now: nat, env: T.Env): Net
    requires Inv(z, n)
  {
    var o := T.Main(z.c, n.tx, now, env);
    if o.frame.None? || |n.requests| == 0 then n.(tx := o.s) else Emitted(n, o)
  }

  /** The sender's frame enters the bus, tagged with its place in the segmentation. */
  function Emitted(n: Net, o: T.Output): Net
    requires o.frame.Some? && |n.requests| > 0
  {
    n.(tx := o.s, txPending := true, sent := n.sent + 1,
       data := n.data + [Packet(o.frame.value, Tag(|n.requests| - 1, n.sent))])
  }

  function RxMain(z: Setup, n: Net, now: nat, env: R.MainEnv): Net
    requires Inv(z, n)
  {
    var o := R.Main(z.r, n.rx, now, env);
    if o.frame.None? then n.(rx := o.s) else n.(rx := o.s, rxPending := true, fc := n.fc + [o.frame.value])
  }

  /** CanIf_RxIndication of the oldest data frame, as the bus delivers it. */
  function DeliverData(z: Setup, n: Net, now: nat, got: R.CanFrame, env: R.RxEnv): Net
    requires Inv(z, n) && n.data != []
  {
    R.ConfirmKeeps(z.r, n.rx, now);
    Handed(z, if z.fakeAtReceiver then ReceiverConfirm(n, now) else n, now, got, env)
  }

  /** CanTp_RxIndication of the oldest data frame. */
  function Handed(z: Setup, n: Net, now: nat, got: R.CanFrame, env: R.RxEnv): Net
    requires R.Inv(z.r, n.rx) && n.data != []
  {
    var rx, t := R.RxIndication(z.r, n.rx, now, got, env), n.data[0].tag;
    n.(rx := rx, data := n.data[1..], seen := t,
       origin := if |rx.delivered| > |n.rx.delivered| && t.Tag? then n.origin + [t.msg] else n.origin)
  }

  /** CanIf_RxIndication of the oldest flow control frame at the sender. */
  function DeliverFlow(z: Setup, n: Net, now: nat, got: R.CanFrame): Net
    requires z.c.Valid() && n.fc != []
  {
    var n1 := if z.fakeAtSender then SenderConfirm(z, n, now) else n;
    n1.(tx := if FrameType(z.c.A(), got) == FLOW_CONTROL then T.FlowControl(z.c, n1.tx, now, got) else n1.tx,
        fc := n.fc[1..])
  }

  ghost function Step(z: Setup, n: Net, e: Event): Net
    requires Inv(z, n)
  {
    match e
    case ERequest(now, request) => Request(z, n, now, request)
    case ECancel => n.(tx := T.Cancel(z.c, n.tx).0)
    case ETxMain(now, env) => TxMain(z, n, now, env)
    case ETxConfirm(now) => SenderConfirm(z, n, now)
    case EData(now, got, env) =>
      if n.data != [] && OnWire(n.data[0].frame, got) then DeliverData(z, n, now, got, env) else n
    case ERxMain(now, env) => RxMain(z, n, now, env)
    case ERxConfirm(now) => ReceiverConfirm(n, now)
    case ERxCancel => n.(rx := R.Cancel(z.r, n.rx).0)
    case EFlow(now, got) => if n.fc != [] && OnWire(n.fc[0], got) then DeliverFlow(z, n, now, got) else n
  }

  // ----- Invariant ------------------------------------------------------------------------------------

  /** The tag belongs to a frame that its request really has. */
  ghost predicate TagOk(c: TxConnection, requests: seq<bytes>, t: Tag) {
    c.Valid() && t.Tag? && t.msg < |requests|
    && Accepts(c, |requests[t.msg]|) && HasFrame(c, |requests[t.msg]|, t.index)
  }

  ghost predicate PacketOk(c: TxConnection, requests: seq<bytes>, p: Packet) {
    TagOk(c, requests, p.tag) && p.frame == Frame(c, requests[p.tag.msg], p.tag.index)
  }

  /** The next frame on the bus continues the same SDU or starts a later one. */
  ghost predicate Follows(a: Tag, b: Tag) {
    b.Tag? && if b.index == 0 then a.NoTag? || a.msg < b.msg else a == Tag(b.msg, b.index - 1)
  }

  ghost predicate Chain(seen: Tag, data: seq<Packet>)
    decreases |data|
  {
    data == [] || (Follows(seen, data[0].tag) && Chain(data[0].tag, data[1..]))
  }

  ghost function Last(seen: Tag, data: seq<Packet>): Tag {
    if data == [] then seen else data[|data| - 1].tag
  }

  /** Frames made of the current request, read off the channel. */
  ghost predicate SentOk(s: T.State, sent: nat) {
    match s.sub
    case Idle => true
    case Accepted => sent == 0
    case WaitFlowControl => sent == s.cfs + 1
    case SendConsecutive => sent == s.cfs + 1
    case WaitConfirmation => sent == (if s.locked then 1 else 0) + (if s.pci == Cf then s.cfs + 1 else 0)
  }

  /** The last frame put on the bus is the latest one of the current request, if it already has one. */
  ghost predicate SenderOk(tx: T.State, requests: seq<bytes>, sent: nat, last: Tag) {
    && SentOk(tx, sent)
    && if tx.sub == T.Idle then last.NoTag? || last.msg < |requests|
       else
         && requests != [] && requests[|requests| - 1] == tx.sdu
         && if sent > 0 then last == Tag(|requests| - 1, sent - 1) else last.NoTag? || last.msg < |requests| - 1
  }

  /** The receiver has taken a prefix of the SDU, unless it already skipped one of its frames. */
  ghost predicate Tracks(c: TxConnection, sdu: bytes, rx: R.State, index: nat) {
    && c.Valid() && IsFirst(TxPci(c, |sdu|)) && rx.len == |sdu| && rx.rxDl == c.txDl && rx.cfs <= index
    && rx.rem == |sdu| - Offset(c, |sdu|, rx.cfs) && rx.sn == (rx.cfs + 1) % 16
    && |rx.copied| == Offset(c, |sdu|, rx.cfs)
    && (rx.cfs == index ==> rx.copied == sdu[..Offset(c, |sdu|, rx.cfs)])
  }

  ghost predicate ReceiverOk(c: TxConnection, requests: seq<bytes>, seen: Tag, rx: R.State) {
    rx.sub != R.Idle && rx.flow != R.OVERFLOW ==>
      TagOk(c, requests, seen) && Tracks(c, requests[seen.msg], rx, seen.index)
  }

  /** Deliveries so far are requests, in strictly increasing order, none beyond the last frame seen. */
  ghost predicate OriginOk(requests: seq<bytes>, delivered: seq<bytes>, origin: seq<nat>, seen: Tag, open: bool) {
    && |origin| == |delivered|
    && (forall i :: 0 <= i < |origin| ==> origin[i] < |requests| && delivered[i] == requests[origin[i]])
    && (forall i, j :: 0 <= i < j < |origin| ==> origin[i] < origin[j])
    && (forall i :: 0 <= i < |origin| ==> Behind(origin[i], seen, open))
  }

  /** Request i is no later than the one of the last frame seen, and earlier while that one is open. */
  ghost predicate Behind(i: nat, seen: Tag, open: bool) {
    seen.Tag? && if open then i < seen.msg else i <= seen.msg
  }

  ghost predicate DataOk(c: TxConnection, requests: seq<bytes>, data: seq<Packet>) {
    forall i :: 0 <= i < |data| ==> PacketOk(c, requests, data[i])
  }

  ghost predicate Inv(z: Setup, n: Net) {
    && z.Valid() && T.Inv(z.c, n.tx) && R.Inv(z.r, n.rx)
    && DataOk(z.c, n.requests, n.data) && Chain(n.seen, n.data)
    && SenderOk(n.tx, n.requests, n.sent, Last(n.seen, n.data))
    && ReceiverOk(z.c, n.requests, n.seen, n.rx)
    && OriginOk(n.requests, n.rx.delivered, n.origin, n.seen, n.rx.sub != R.Idle)
  }

  // ----- Sender side ----------------------------------------------------------------------------------

  /** A main function call either emits the next frame of the segmentation or none. */
  ghost predicate SendsNext(c: TxConnection, s: T.State, sent: nat, o: T.Output)
    requires c.Valid()
  {
    && (o.s.sub != T.Idle ==> o.s.sdu == s.sdu && s.sub != T.Idle)
    && if o.frame.None? then SentOk(o.s, sent)
       else o.s.sub != T.Idle && SentOk(o.s, sent + 1) && HasFrame(c, |s.sdu|, sent)
            && o.frame.value == Frame(c, s.sdu, sent)
  }

  lemma MainSends(c: TxConnection, s: T.State, sent: nat, now: nat, env: T.Env)
    ensures T.Inv(c, s) && SentOk(s, sent) ==> SendsNext(c, s, sent, T.Main(c, s, now, env))
  {
    if T.Inv(c, s) && SentOk(s, sent) {
      match s.sub
      case Idle =>
      case Accepted => AcceptedSends(c, s, sent, now, env);
      case WaitConfirmation =>
      case WaitFlowControl =>
      case SendConsecutive => ConsecutiveSends(c, s, sent, now, env);
    }
  }

  lemma AcceptedSends(c: TxConnection, s: T.State, sent: nat, now: nat, env: T.Env)
    requires T.Inv(c, s) && SentOk(s, sent) && s.sub == T.Accepted
    ensures SendsNext(c, s, sent, T.MainAccepted(c, s, now, env))
  {
    T.AcceptedEmits(c, s, now, env);
    hide T.MainAccepted, T.Inv, Frame, ValidDl;
    assert TxPci(c, s.len) != Cf;
  }

  lemma ConsecutiveSends(c: TxConnection, s: T.State, sent: nat, now: nat, env: T.Env)
    requires T.Inv(c, s) && SentOk(s, sent) && s.sub == T.SendConsecutive
    ensures SendsNext(c, s, sent, T.MainSendConsecutive(c, s, now, env))
  {
    hide T.Inv, T.MainSendConsecutive, Frame, HasFrame, ConsecutiveFrame, ValidDl;
    T.SendConsecutiveEmits(c, s, now, env);
    NextFrame(c, s);
  }

  /** The frame that the channel is about to make is the next one of the segmentation. */
  lemma NextFrame(c: TxConnection, s: T.State)
    ensures T.Inv(c, s) && s.sub == T.SendConsecutive ==>
              && !s.locked && s.sn < 16 && s.cursor + Min(s.rem, c.Payload()) <= |s.sdu| && HasFrame(c, |s.sdu|, s.cfs + 1)
              && Frame(c, s.sdu, s.cfs + 1)
                 == ConsecutiveFrame(c, s.sn, s.sdu[s.cursor..s.cursor + Min(s.rem, c.Payload())])
  {
    hide ValidDl, Accepts, TxPci, BlockCfs, ConsecutiveFrame;
  }

  lemma {:induction false} ChainExtends(seen: Tag, data: seq<Packet>, p: Packet)
    requires Chain(seen, data) && Follows(Last(seen, data), p.tag)
    ensures Chain(seen, data + [p])
    decreases |data|
  {
    if data != [] {
      ChainExtends(data[0].tag, data[1..], p);
      assert (data + [p])[1..] == data[1..] + [p];
    }
  }

  /** A main function call keeps the sender's bookkeeping, and its frame continues the bus. */
  ghost predicate Advances(c: TxConnection, n: Net, o: T.Output) {
    var last, t := Last(n.seen, n.data), Tag(if n.requests == [] then 0 else |n.requests| - 1, n.sent);
    if o.frame.None? then SenderOk(o.s, n.requests, n.sent, last)
    else n.requests != [] && SenderOk(o.s, n.requests, n.sent + 1, t) && Follows(last, t)
         && PacketOk(c, n.requests, Packet(o.frame.value, t))
  }

  lemma SenderAdvances(z: Setup, n: Net, now: nat, env: T.Env)
    ensures Inv(z, n) ==> Advances(z.c, n, T.Main(z.c, n.tx, now, env))
  {
    hide T.Inv, R.Inv, T.Main, SentOk, Frame, HasFrame, Accepts, ReceiverOk, OriginOk, DataOk, Chain;
    MainSends(z.c, n.tx, n.sent, now, env);
    AdmittedSdu(z.c, n.tx);
  }

  lemma AdmittedSdu(c: TxConnection, s: T.State)
    ensures T.Inv(c, s) && s.sub != T.Idle ==> Accepts(c, |s.sdu|)
  {
  }

  lemma TxMainKeeps(z: Setup, n: Net, now: nat, env: T.Env)
    requires Inv(z, n)
    ensures Inv(z, TxMain(z, n, now, env))
  {
    hide T.Inv, R.Inv, T.Main, Matched, SenderOk, ReceiverOk, OriginOk, PacketOk, Follows;
    T.MainKeeps(z.c, n.tx, now, env);
    SenderAdvances(z, n, now, env);
    BusExtends(z.c, n, T.Main(z.c, n.tx, now, env));
  }

  lemma BusExtends(c: TxConnection, n: Net, o: T.Output)
    requires Chain(n.seen, n.data) && DataOk(c, n.requests, n.data) && Advances(c, n, o)
    ensures o.frame.Some? ==>
              Chain(n.seen, Emitted(n, o).data) && DataOk(c, n.requests, Emitted(n, o).data)
  {
    hide Follows, PacketOk, SenderOk;
    if o.frame.Some? {
      ChainExtends(n.seen, n.data, Packet(o.frame.value, Tag(|n.requests| - 1, n.sent)));
    }
  }

  /** The sender stops or moves on without a new frame. */
  lemma SenderMoves(c: TxConnection, tx: T.State, requests: seq<bytes>, sent: nat, last: Tag, now: nat, f: bytes)
    requires T.Inv(c, tx) && SenderOk(tx, requests, sent, last)
    ensures SenderOk(T.Cancel(c, tx).0, requests, sent, last)
    ensures SenderOk(T.TxConfirmation(c, tx, now), requests, sent, last)
    ensures SenderOk(T.FlowControl(c, tx, now, f), requests, sent, last)
  {
    hide ValidDl, Accepts, TxPci, BlockCfs, Offset, FlowControlCheck;
  }

  lemma SenderConfirmKeeps(z: Setup, n: Net, now: nat)
    ensures Inv(z, n) ==> Inv(z, SenderConfirm(z, n, now))
  {
    if Inv(z, n) {
      T.ConfirmationKeeps(z.c, n.tx, now);
      SenderMoves(z.c, n.tx, n.requests, n.sent, Last(n.seen, n.data), now, []);
      hide T.Inv, R.Inv, T.TxConfirmation, Matched, SenderOk, ReceiverOk, OriginOk, DataOk, Chain;
    }
  }

  lemma CancelKeeps(z: Setup, n: Net)
    ensures Inv(z, n) ==> Inv(z, n.(tx := T.Cancel(z.c, n.tx).0))
  {
    if Inv(z, n) {
      T.StepKeeps(z.c, n.tx, T.ECancel);
      SenderMoves(z.c, n.tx, n.requests, n.sent, Last(n.seen, n.data), 0, []);
      hide T.Inv, R.Inv, T.Cancel, Matched, SenderOk, ReceiverOk, OriginOk, DataOk, Chain;
    }
  }

  lemma DeliverFlowKeeps(z: Setup, n: Net, now: nat, got: R.CanFrame)
    ensures Inv(z, n) && n.fc != [] ==> Inv(z, DeliverFlow(z, n, now, got))
  {
    if Inv(z, n) {
      SenderConfirmKeeps(z, n, now);
      var n1 := if z.fakeAtSender then SenderConfirm(z, n, now) else n;
      FlowKeeps(z, n1, now, got);
      hide SenderConfirm, T.Inv, R.Inv, T.FlowControl, Matched, SenderOk, ReceiverOk, OriginOk, DataOk, Chain;
    }
  }

  lemma FlowKeeps(z: Setup, n: Net, now: nat, got: R.CanFrame)
    ensures Inv(z, n) ==> Inv(z, n.(tx := T.FlowControl(z.c, n.tx, now, got)))
  {
    if Inv(z, n) {
      T.FlowControlKeeps(z.c, n.tx, now, got);
      SenderMoves(z.c, n.tx, n.requests, n.sent, Last(n.seen, n.data), now, got);
      hide T.Inv, R.Inv, T.FlowControl, Matched, SenderOk, ReceiverOk, OriginOk, DataOk, Chain;
    }
  }

  /** A new request leaves everything said about the earlier ones true. */
  lemma RequestsGrow(z: Setup, n: Net, x: bytes)
    requires Inv(z, n)
    ensures DataOk(z.c, n.requests + [x], n.data)
    ensures ReceiverOk(z.c, n.requests + [x], n.seen, n.rx)
    ensures OriginOk(n.requests + [x], n.rx.delivered, n.origin, n.seen, n.rx.sub != R.Idle)
  {
    hide T.Inv, R.Inv, Accepts, HasFrame, Frame, Tracks;
  }

  lemma RequestKeeps(z: Setup, n: Net, now: nat, request: Option<bytes>)
    ensures Inv(z, n) ==> Inv(z, Request(z, n, now, request))
  {
    if Inv(z, n) {
      T.StepKeeps(z.c, n.tx, T.ERequest(now, request));
      var (s, ret) := T.Transmit(z.c, n.tx, now, request);
      RequestsGrow(z, n, s.sdu);
      assert ret == Ok ==> SenderOk(s, n.requests + [s.sdu], 0, Last(n.seen, n.data));
      hide T.Inv, R.Inv, T.Transmit, Matched, SenderOk, ReceiverOk, OriginOk, DataOk, Chain;
    }
  }

  // ----- Receiver side --------------------------------------------------------------------------------

  /** A call that moves no data keeps what the receiver tracks. */
  ghost predicate StandsStill(rx: R.State, rx': R.State) {
    && rx'.copied == rx.copied && rx'.delivered == rx.delivered && rx'.cfs == rx.cfs && rx'.sn == rx.sn
    && rx'.len == rx.len && rx'.rem == rx.rem && rx'.rxDl == rx.rxDl
    && (rx'.sub != R.Idle ==> rx.sub != R.Idle && (rx'.flow == R.OVERFLOW <==> rx.flow == R.OVERFLOW))
  }

  lemma StillKeeps(z: Setup, n: Net, rx': R.State)
    ensures Inv(z, n) && R.Inv(z.r, rx') && StandsStill(n.rx, rx') ==> Inv(z, n.(rx := rx'))
  {
    hide T.Inv, R.Inv, Matched, SenderOk, DataOk, Chain, TagOk;
  }

  lemma ReceiverConfirmKeeps(z: Setup, n: Net, now: nat)
    ensures Inv(z, n) ==> Inv(z, ReceiverConfirm(n, now))
  {
    hide T.Inv, R.Inv, R.Step, Matched, SenderOk, ReceiverOk, OriginOk, DataOk, Chain;
    R.ConfirmKeeps(z.r, n.rx, now);
    StillKeeps(z, n, R.TxConfirmation(n.rx, now));
  }

  lemma RxCancelKeeps(z: Setup, n: Net)
    ensures Inv(z, n) ==> Inv(z, n.(rx := R.Cancel(z.r, n.rx).0))
  {
    if Inv(z, n) {
      R.StepKeeps(z.r, n.rx, R.ECancel);
      StillKeeps(z, n, R.Cancel(z.r, n.rx).0);
    }
  }

  lemma RxMainKeeps(z: Setup, n: Net, now: nat, env: R.MainEnv)
    ensures Inv(z, n) ==> Inv(z, RxMain(z, n, now, env))
  {
    if Inv(z, n) {
      R.MainKeeps(z.r, n.rx, now, env);
      R.MainEffect(z.r, n.rx, now, env);
      StillKeeps(z, n, R.Main(z.r, n.rx, now, env).s);
      hide T.Inv, R.Inv, R.Main, Matched, SenderOk, ReceiverOk, OriginOk, DataOk, Chain;
    }
  }

  /** What the arrival of one frame of an SDU may do to the receiver. */
  ghost predicate Arrives(c: TxConnection, sdu: bytes, index: nat, rx: R.State, rx': R.State) {
    && (rx'.sub != R.Idle && rx'.flow != R.OVERFLOW ==> Tracks(c, sdu, rx', index))
    && (index > 0 && rx'.sub != R.Idle ==> rx.sub != R.Idle)
    && (|| rx'.delivered == rx.delivered
        || (rx'.delivered == rx.delivered + [sdu] && rx'.sub == R.Idle && (index > 0 ==> rx.sub != R.Idle)))
  }

  lemma SingleArrives(z: Setup, sdu: bytes, rx: R.State, now: nat, got: R.CanFrame, env: R.RxEnv)
    requires z.Valid() && R.Inv(z.r, rx) && Accepts(z.c, |sdu|) && IsSingle(TxPci(z.c, |sdu|))
    requires OnWire(Frame(z.c, sdu, 0), got)
    ensures Arrives(z.c, sdu, 0, rx, R.RxIndication(z.r, rx, now, got, env))
  {
    hide SingleCheck, SingleFrame, OnWire, Tracks, R.Inv;
    SingleFrameDecodes(z.c, z.r, sdu, got);
  }

  lemma FirstArrives(z: Setup, sdu: bytes, rx: R.State, now: nat, got: R.CanFrame, env: R.RxEnv)
    requires z.Valid() && R.Inv(z.r, rx) && Accepts(z.c, |sdu|) && IsFirst(TxPci(z.c, |sdu|))
    requires OnWire(Frame(z.c, sdu, 0), got)
    ensures Arrives(z.c, sdu, 0, rx, R.RxIndication(z.r, rx, now, got, env))
  {
    if z.c.functional { FunctionalIsSingle(z.c, |sdu|); }
    FirstFrameDecodes(z.c, z.r, sdu, got);
    R.FirstEffect(z.r, rx, now, got, env);
    assert Offset(z.c, |sdu|, 0) == FirstPayload(z.c, |sdu|);
    hide FirstCheck, FirstFrame, TxPci, Accepts, ValidDl, OnWire, Offset, FirstPayload, R.RxFirst, R.Inv;
  }

  /** A consecutive frame completes the SDU only if the receiver skipped none before it. */
  lemma ConsecutiveArrives(z: Setup, sdu: bytes, i: nat, rx: R.State, now: nat, got: R.CanFrame, env: R.RxEnv)
    requires z.Valid() && R.Inv(z.r, rx) && HasFrame(z.c, |sdu|, i + 1)
    requires rx.sub != R.Idle && rx.flow != R.OVERFLOW ==> Tracks(z.c, sdu, rx, i)
    requires OnWire(Frame(z.c, sdu, i + 1), got)
    ensures Arrives(z.c, sdu, i + 1, rx, R.RxIndication(z.r, rx, now, got, env))
  {
    assert FrameType(z.r.A(), got) == CONSECUTIVE by {
      ConsecutiveFrameDecodes(z.c, z.r, (i + 1) % 16, |sdu| - Offset(z.c, |sdu|, i), Segment(z.c, sdu, i + 1), got);
    }
    if rx.sub == R.WaitConsecutive {
      SegmentArrives(z, sdu, i, rx, now, got, env);
    }
    hide OnWire, ValidDl, Accepts, TxPci, HasFrame, Offset, R.RxConsecutive;
  }

  lemma SegmentArrives(z: Setup, sdu: bytes, i: nat, rx: R.State, now: nat, got: R.CanFrame, env: R.RxEnv)
    requires z.Valid() && R.Inv(z.r, rx) && HasFrame(z.c, |sdu|, i + 1)
    requires rx.sub == R.WaitConsecutive && Tracks(z.c, sdu, rx, i)
    requires OnWire(Frame(z.c, sdu, i + 1), got)
    ensures Arrives(z.c, sdu, i + 1, rx, R.RxConsecutive(z.r, rx, now, got, env))
  {
    hide OnWire, ValidDl, TxPci, HasFrame, Offset, R.TakeSegment, Frame, CanDl;
    R.ConsecutiveTakes(z.r, rx.rxDl, rx.rem, got);
    SegmentTaken(z, sdu, i, rx, now, got);
  }

  lemma SegmentTaken(z: Setup, sdu: bytes, i: nat, rx: R.State, now: nat, got: R.CanFrame)
    ensures Expects(z, sdu, i, rx, got) && ConsecutiveCheck(z.r, rx.rxDl, rx.rem, got).ok ==>
              var o := z.r.A() + 1;
              o + Min(rx.rem, z.c.Payload()) <= |got|
              && Arrives(z.c, sdu, i + 1, rx, R.TakeSegment(rx, now, got[o..o + Min(rx.rem, z.c.Payload())]))
  {
    hide OnWire, ValidDl, R.Inv, R.TakeSegment, ConsecutiveCheck, Frame, CanDl, Arrives;
    SegmentBytes(z, sdu, i, rx, got);
    if Expects(z, sdu, i, rx, got) && ConsecutiveCheck(z.r, rx.rxDl, rx.rem, got).ok {
      var data := got[z.r.A() + 1..z.r.A() + 1 + Min(rx.rem, z.c.Payload())];
      if rx.cfs == i { CleanArrives(z.c, sdu, rx, now, data); } else { LateArrives(z.c, sdu, i, rx, now, data); }
    }
  }

  /** The receiver is in the middle of this SDU and the bus brings frame i + 1. */
  ghost predicate Expects(z: Setup, sdu: bytes, i: nat, rx: R.State, got: R.CanFrame) {
    && z.Valid() && R.Inv(z.r, rx) && HasFrame(z.c, |sdu|, i + 1)
    && rx.sub == R.WaitConsecutive && Tracks(z.c, sdu, rx, i) && OnWire(Frame(z.c, sdu, i + 1), got)
  }

  lemma SegmentBytes(z: Setup, sdu: bytes, i: nat, rx: R.State, got: R.CanFrame)
    ensures Expects(z, sdu, i, rx, got) && ConsecutiveCheck(z.r, rx.rxDl, rx.rem, got).ok ==>
              var o := z.r.A() + 1;
              o + Min(rx.rem, z.c.Payload()) <= |got|
              && (rx.cfs == i ==> got[o..o + Min(rx.rem, z.c.Payload())] == Segment(z.c, sdu, i + 1))
  {
    if Expects(z, sdu, i, rx, got) && ConsecutiveCheck(z.r, rx.rxDl, rx.rem, got).ok {
      R.ConsecutiveTakes(z.r, rx.rxDl, rx.rem, got);
      if rx.cfs == i {
        ConsecutiveFrameDecodes(z.c, z.r, (i + 1) % 16, rx.rem, Segment(z.c, sdu, i + 1), got);
      }
    }
  }

  /** Nothing skipped so far: the copied bytes grow to the next prefix of the SDU. */
  lemma CleanArrives(c: TxConnection, sdu: bytes, rx: R.State, now: nat, data: bytes)
    requires c.Valid() && HasFrame(c, |sdu|, rx.cfs + 1) && rx.sub == R.WaitConsecutive && Tracks(c, sdu, rx, rx.cfs)
    requires data == Segment(c, sdu, rx.cfs + 1)
    ensures Arrives(c, sdu, rx.cfs + 1, rx, R.TakeSegment(rx, now, data))
  {
    hide ValidDl, TxPci, Offset, IsFirst;
    var k := rx.cfs;
    OffsetStep(c, |sdu|, k);
    assert sdu[..Offset(c, |sdu|, k + 1)] == sdu[..Offset(c, |sdu|, k)] + data;
    assert sdu[..|sdu|] == sdu;
  }

  /** A frame was skipped: the frames still to come cannot fill the SDU any more. */
  lemma LateArrives(c: TxConnection, sdu: bytes, i: nat, rx: R.State, now: nat, data: bytes)
    requires c.Valid() && HasFrame(c, |sdu|, i + 1) && rx.sub == R.WaitConsecutive && Tracks(c, sdu, rx, i)
    requires rx.cfs < i && |data| == Min(rx.rem, c.Payload())
    ensures Arrives(c, sdu, i + 1, rx, R.TakeSegment(rx, now, data))
  {
    hide ValidDl, TxPci, Offset, IsFirst;
    OffsetStep(c, |sdu|, rx.cfs);
    OffsetMonotone(c, |sdu|, rx.cfs + 1, i);
  }

  lemma FrameArrives(z: Setup, requests: seq<bytes>, seen: Tag, p: Packet, rx: R.State, now: nat, got: R.CanFrame, env: R.RxEnv)
    requires z.Valid() && R.Inv(z.r, rx) && PacketOk(z.c, requests, p) && Follows(seen, p.tag)
    requires ReceiverOk(z.c, requests, seen, rx) && OnWire(p.frame, got)
    ensures Arrives(z.c, requests[p.tag.msg], p.tag.index, rx, R.RxIndication(z.r, rx, now, got, env))
  {
    var sdu := requests[p.tag.msg];
    if p.tag.index > 0 {
      ConsecutiveArrives(z, sdu, p.tag.index - 1, rx, now, got, env);
    } else if IsSingle(TxPci(z.c, |sdu|)) {
      SingleArrives(z, sdu, rx, now, got, env);
    } else {
      FirstArrives(z, sdu, rx, now, got, env);
    }
  }

  lemma OriginGrows(requests: seq<bytes>, origin: seq<nat>, seen: Tag, t: Tag, c: TxConnection, rx: R.State, rx': R.State)
    requires OriginOk(requests, rx.delivered, origin, seen, rx.sub != R.Idle)
    requires Follows(seen, t) && t.msg < |requests| && Arrives(c, requests[t.msg], t.index, rx, rx')
    ensures OriginOk(requests, rx'.delivered, if |rx'.delivered| > |rx.delivered| then origin + [t.msg] else origin,
                     t, rx'.sub != R.Idle)
  {
    hide Tracks;
  }

  /** The oldest data frame is handed to the receiver. */
  lemma DataKeeps(z: Setup, n: Net, now: nat, got: R.CanFrame, env: R.RxEnv)
    requires Inv(z, n) && n.data != [] && OnWire(n.data[0].frame, got)
    ensures Inv(z, Handed(z, n, now, got, env))
  {
    hide T.Inv, R.Inv, OnWire, SenderOk, Tracks, Accepts, HasFrame, Frame, R.RxIndication, Matched, DataOk, Chain, OriginOk, TagOk;
    var t := n.data[0].tag;
    TakeOldest(z.c, n.requests, n.seen, n.data);
    R.FrameKeeps(z.r, n.rx, now, got, env);
    FrameArrives(z, n.requests, n.seen, n.data[0], n.rx, now, got, env);
    OriginGrows(n.requests, n.origin, n.seen, t, z.c, n.rx, R.RxIndication(z.r, n.rx, now, got, env));
  }

  /** What is on the bus stays in order when the oldest frame is taken off. */
  lemma TakeOldest(c: TxConnection, requests: seq<bytes>, seen: Tag, data: seq<Packet>)
    requires data != [] && DataOk(c, requests, data) && Chain(seen, data)
    ensures var p := data[0];
            && PacketOk(c, requests, p) && Follows(seen, p.tag) && p.tag.Tag? && p.tag.msg < |requests|
            && DataOk(c, requests, data[1..]) && Chain(p.tag, data[1..]) && Last(p.tag, data[1..]) == Last(seen, data)
  {
    hide Frame, HasFrame, Accepts;
  }

  lemma DeliverDataKeeps(z: Setup, n: Net, now: nat, got: R.CanFrame, env: R.RxEnv)
    requires Inv(z, n) && n.data != [] && OnWire(n.data[0].frame, got)
    ensures Inv(z, DeliverData(z, n, now, got, env))
  {
    hide Inv, OnWire;
    ReceiverConfirmKeeps(z, n, now);
    var n1 := if z.fakeAtReceiver then ReceiverConfirm(n, now) else n;
    DataKeeps(z, n1, now, got, env);
  }

  /** Every call and every delivery keeps the invariant. */
  lemma StepKeeps(z: Setup, n: Net, e: Event)
    requires Inv(z, n)
    ensures Inv(z, Step(z, n, e))
  {
    hide Inv, OnWire;
    match e
    case ERequest(now, request) => RequestKeeps(z, n, now, request);
    case ECancel => CancelKeeps(z, n);
    case ETxMain(now, env) => TxMainKeeps(z, n, now, env);
    case ETxConfirm(now) => SenderConfirmKeeps(z, n, now);
    case EData(now, got, env) =>
      if n.data != [] && OnWire(n.data[0].frame, got) { DeliverDataKeeps(z, n, now, got, env); }
    case ERxMain(now, env) => RxMainKeeps(z, n, now, env);
    case ERxConfirm(now) => ReceiverConfirmKeeps(z, n, now);
    case ERxCancel => RxCancelKeeps(z, n);
    case EFlow(now, got) => DeliverFlowKeeps(z, n, now, got);
  }

  ghost function Run(z: Setup, events: seq<Event>): (n: Net)
    requires z.Valid()
    ensures Inv(z, n)
  {
    if events == [] then Init()
    else
      var n := Run(z, events[..|events| - 1]);
      StepKeeps(z, n, events[|events| - 1]);
      Step(z, n, events[|events| - 1])
  }

  // ----- End-to-end delivery --------------------------------------------------------------------------

  /** The sub-sequence of xs selected by strictly increasing positions. */
  ghost predicate Selects(xs: seq<bytes>, positions: seq<nat>, ys: seq<bytes>) {
    && |positions| == |ys|
    && (forall i, j :: 0 <= i < j < |positions| ==> positions[i] < positions[j])
    && (forall i :: 0 <= i < |ys| ==> positions[i] < |xs| && ys[i] == xs[positions[i]])
  }

  /** The request that this event makes the sender accept, if any. */
  ghost function Accepted(z: Setup, n: Net, e: Event): seq<bytes>
    requires z.c.Valid()
  {
    if e.ERequest? && e.request.Some? && T.Transmit(z.c, n.tx, e.now, e.request).1 == Ok then [e.request.value] else []
  }

  /** Requests that CanTp_Transmit accepted along a run, in order. */
  ghost function Requests(z: Setup, events: seq<Event>): seq<bytes>
    requires z.Valid()
  {
    if events == [] then []
    else Requests(z, events[..|events| - 1]) + Accepted(z, Run(z, events[..|events| - 1]), events[|events| - 1])
  }

  lemma StepRecords(z: Setup, n: Net, e: Event)
    requires Inv(z, n)
    ensures Step(z, n, e).requests == n.requests + Accepted(z, n, e)
  {
    hide Inv, OnWire, R.Inv, T.Inv, T.Main, R.Main, R.RxIndication, T.FlowControl, T.TxConfirmation, R.TxConfirmation;
  }

  lemma {:induction false} RequestsRecorded(z: Setup, events: seq<Event>)
    requires z.Valid()
    ensures Run(z, events).requests == Requests(z, events)
  {
    hide Inv, Step, Accepted;
    if events != [] {
      RequestsRecorded(z, events[..|events| - 1]);
      StepRecords(z, Run(z, events[..|events| - 1]), events[|events| - 1]);
    }
  }

  /**
   * End-to-end delivery: over any interleaving of calls, deliveries, timeouts, cancellations, wait and
   * clear-to-send patterns, each SDU that the receiver indicates with E_OK is byte for byte a request that
   * the sender accepted, no request is delivered twice, and deliveries come in request order.
   */
  lemma DeliveryIsFaithful(z: Setup, events: seq<Event>)
    requires z.Valid()
    ensures exists p :: Selects(Requests(z, events), p, Run(z, events).rx.delivered)
  {
    hide Run, Requests, Selects, Inv;
    RequestsRecorded(z, events);
    var n := Run(z, events);
    OriginSelects(z, n);
  }

  lemma OriginSelects(z: Setup, n: Net)
    requires Inv(z, n)
    ensures Selects(n.requests, n.origin, n.rx.delivered)
  {
    hide T.Inv, R.Inv, SenderOk, ReceiverOk, DataOk, Chain, Matched;
  }
}
