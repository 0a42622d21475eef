/** Buffer grants: a CanTp receiver in front of the AnchorCom reassembly buffer never overruns a granted block. */
module CanTpGrant {
  import opened Bytes
  import opened CanTpConfig
  import opened CanTpFrames
  import R = CanTpReceiver

  // ----- The AnchorCom buffer ----------------------------------------------------------------------

  /** rbdAnchorComTp_StartOfReception: the whole capacity is reported, although one byte is reserved. */
  function StartOfReception(cap: nat, len: nat): R.Start {
    if len > cap then R.TooLong else R.Grant(cap)
  }

  /** rbdAnchorComTp_CopyRxData accepts n more bytes after offset. */
  predicate CopyFits(cap: nat, offset: nat, n: nat) {
    offset + n <= cap
  }

  /** The write position after start of reception and an attempt to copy n bytes. */
  function AfterStart(cap: nat, offset: nat, len: nat, n: nat): nat {
    if len > cap then offset else if n <= cap && CopyFits(cap, 1, n) then 1 + n else 1
  }

  // ----- Channel and buffer together ---------------------------------------------------------------

  /** A receive channel and the write position of its AnchorCom buffer. */
  datatype Node = Node(s: R.State, offset: nat)

  datatype Event =
    | EFrame(now: nat, frame: R.CanFrame)
    | EMain(now: nat, lowerOk: bool)
    | EConfirm(now: nat)
    | ECancel

  /** The channel hands the bytes of this consecutive frame to the upper layer. */
  ghost predicate AsksSegment(r: RxConnection, s: R.State, now: nat, f: R.CanFrame)
    requires R.Inv(r, s)
  {
    && FrameType(r.A(), f) == CONSECUTIVE && !r.functional && s.sub == R.WaitConsecutive
    && !(r.strict && Elapsed(now, s.initialTicks) > r.crTicks)
    && var x := ConsecutiveCheck(r, s.rxDl, s.rem, f);
       x.ok && x.low == s.sn
  }

  /** Bytes in the next segment. */
  function SegmentSize(r: RxConnection, s: R.State): nat
    requires R.Inv(r, s) && s.sub == R.WaitConsecutive
  {
    Min(s.rem, s.rxDl - r.A() - 1)
  }

  /** Bytes that a first frame brings. */
  function FirstSize(r: RxConnection, f: R.CanFrame): nat
    requires r.Valid() && FirstCheck(r, f).ok
  {
    R.FirstLeavesRemainder(r, f);
    |f| - FirstCheck(r, f).offset
  }

  ghost function FrameStep(cap: nat, r: RxConnection, n: Node, now: nat, f: R.CanFrame): Node
    requires R.Inv(r, n.s)
  {
    var t := FrameType(r.A(), f);
    if t == SINGLE && SingleCheck(r, f).ok then
      var len := SingleCheck(r, f).sduLength;
      Node(R.RxIndication(r, n.s, now, f, R.RxEnv(StartOfReception(cap, len), CopyFits(cap, 1, len))),
           AfterStart(cap, n.offset, len, len))
    else if t == FIRST && FirstCheck(r, f).ok && !r.functional then
      var len, count := FirstCheck(r, f).sduLength, FirstSize(r, f);
      Node(R.RxIndication(r, n.s, now, f, R.RxEnv(StartOfReception(cap, len), CopyFits(cap, 1, count))),
           AfterStart(cap, n.offset, len, count))
    else if AsksSegment(r, n.s, now, f) then
      var fits := CopyFits(cap, n.offset, SegmentSize(r, n.s));
      Node(R.RxIndication(r, n.s, now, f, R.RxEnv(R.Reject, fits)),
           if fits then n.offset + SegmentSize(r, n.s) else n.offset)
    else
      n.(s := R.RxIndication(r, n.s, now, f, R.RxEnv(R.Reject, false)))
  }

  ghost function Step(cap: nat, r: RxConnection, n: Node, e: Event): Node
    requires R.Inv(r, n.s) && n.offset <= cap
  {
    match e
    case EFrame(now, f) => FrameStep(cap, r, n, now, f)
    case EMain(now, lowerOk) => n.(s := R.Main(r, n.s, now, R.MainEnv(Some(cap - n.offset), lowerOk)).s)
    case EConfirm(now) => n.(s := R.TxConfirmation(n.s, now))
    case ECancel => n.(s := R.Cancel(r, n.s).0)
  }

  /** Bytes that the open block may still bring. */
  function BlockBytes(blockCfs: nat, payload: int, rem: nat): int {
    Min(blockCfs * payload, rem)
  }

  ghost predicate Inv(cap: nat, r: RxConnection, n: Node) {
    && R.Inv(r, n.s) && n.offset <= cap && cap > 0
    && (n.s.sub != R.Idle && n.s.flow != R.OVERFLOW ==> n.offset == 1 + |n.s.copied|)
    && (n.s.sub != R.Idle && n.s.flow == R.CTS ==> BlockBytes(n.s.blockCfs, n.s.rxDl - r.A() - 1, n.s.rem) <= cap - n.offset)
    && forall d :: d in n.s.delivered ==> |d| < cap
  }

  /** Clear-to-send is only ever granted for what the reported buffer holds, in spite of the 8-bit block size. */
  lemma GrantFits(r: RxConnection, s: R.State, free: nat)
    requires r.Valid() && ValidDl(s.rxDl)
    ensures var s' := R.SetRxBlockInfo(r, s, free); s'.flow == R.CTS ==> BlockBytes(s'.blockCfs, s.rxDl - r.A() - 1, s.rem) <= free
  {
  }

  lemma OpenedFits(r: RxConnection, s: R.State, env: R.MainEnv, s': R.State)
    ensures R.Inv(r, s) && R.Opened(r, s, env, s') ==>
              BlockBytes(s'.blockCfs, s.rxDl - r.A() - 1, s.rem) <= env.free.value
  {
    if R.Inv(r, s) && R.Opened(r, s, env, s') { GrantFits(r, s.(blockCfs := 0), env.free.value); }
  }

  lemma MainKeeps(cap: nat, r: RxConnection, n: Node, now: nat, lowerOk: bool)
    requires Inv(cap, r, n)
    ensures Inv(cap, r, Step(cap, r, n, EMain(now, lowerOk)))
  {
    hide R.Inv, R.Main, R.Opened, R.SetRxBlockInfo, ValidDl, BlockBytes;
    var env := R.MainEnv(Some(cap - n.offset), lowerOk);
    R.MainKeeps(r, n.s, now, env);
    R.MainEffect(r, n.s, now, env);
    OpenedFits(r, n.s, env, R.Main(r, n.s, now, env).s);
  }

  /** Inside a granted block the buffer takes every segment. */
  lemma SegmentFits(cap: nat, r: RxConnection, n: Node, now: nat, f: R.CanFrame)
    requires Inv(cap, r, n) && AsksSegment(r, n.s, now, f)
    ensures CopyFits(cap, n.offset, SegmentSize(r, n.s))
  {
    var p := n.s.rxDl - r.A() - 1;
    assert n.s.blockCfs * p >= p by { Multiple(n.s.blockCfs, p); }
  }

  /** The node after it took the segment in this frame. */
  lemma SegmentStep(cap: nat, r: RxConnection, n: Node, now: nat, f: R.CanFrame) returns (data: bytes)
    requires Inv(cap, r, n) && AsksSegment(r, n.s, now, f)
    ensures |data| == SegmentSize(r, n.s) <= n.s.rem
    ensures FrameStep(cap, r, n, now, f) == Node(R.TakeSegment(n.s, now, data), n.offset + |data|)
  {
    hide ValidDl, CanDl, BlockBytes, R.TakeSegment;
    SegmentFits(cap, r, n, now, f);
    R.ConsecutiveTakes(r, n.s.rxDl, n.s.rem, f);
    var x := ConsecutiveCheck(r, n.s.rxDl, n.s.rem, f);
    data := f[x.offset..x.offset + SegmentSize(r, n.s)];
  }

  lemma SegmentKeeps(cap: nat, r: RxConnection, n: Node, now: nat, f: R.CanFrame)
    requires Inv(cap, r, n) && AsksSegment(r, n.s, now, f)
    ensures Inv(cap, r, FrameStep(cap, r, n, now, f))
  {
    hide ValidDl, FrameStep, BlockCfs, ConsecutiveCheck, FrameType;
    SegmentFits(cap, r, n, now, f);
    var data := SegmentStep(cap, r, n, now, f);
    R.TakeSegmentKeeps(r, n.s, now, data);
    var p := n.s.rxDl - r.A() - 1;
    assert (n.s.blockCfs - 1) * p == n.s.blockCfs * p - p;
  }

  lemma FrameKeeps(cap: nat, r: RxConnection, n: Node, now: nat, f: R.CanFrame)
    requires Inv(cap, r, n)
    ensures Inv(cap, r, FrameStep(cap, r, n, now, f))
  {
    if AsksSegment(r, n.s, now, f) {
      SegmentKeeps(cap, r, n, now, f);
    } else {
      OtherFrameKeeps(cap, r, n, now, f);
    }
  }

  lemma OtherFrameKeeps(cap: nat, r: RxConnection, n: Node, now: nat, f: R.CanFrame)
    requires Inv(cap, r, n) && !AsksSegment(r, n.s, now, f)
    ensures Inv(cap, r, FrameStep(cap, r, n, now, f))
  {
    var t := FrameType(r.A(), f);
    if t == SINGLE && SingleCheck(r, f).ok {
      SingleKeeps(cap, r, n, now, f);
    } else if t == FIRST && FirstCheck(r, f).ok && !r.functional {
      FirstKeeps(cap, r, n, now, f);
    } else {
      RefusedKeeps(cap, r, n, now, f);
    }
  }

  lemma SingleKeeps(cap: nat, r: RxConnection, n: Node, now: nat, f: R.CanFrame)
    requires Inv(cap, r, n) && FrameType(r.A(), f) == SINGLE && SingleCheck(r, f).ok
    ensures Inv(cap, r, FrameStep(cap, r, n, now, f))
  {
    hide ValidDl, CanDl, BlockCfs;
    var len := SingleCheck(r, f).sduLength;
    R.FrameKeeps(r, n.s, now, f, R.RxEnv(StartOfReception(cap, len), CopyFits(cap, 1, len)));
  }

  lemma FirstKeeps(cap: nat, r: RxConnection, n: Node, now: nat, f: R.CanFrame)
    requires Inv(cap, r, n) && FrameType(r.A(), f) == FIRST && FirstCheck(r, f).ok && !r.functional
    ensures Inv(cap, r, FrameStep(cap, r, n, now, f))
  {
    hide FirstCheck, ValidDl, BlockCfs;
    var len, count := FirstCheck(r, f).sduLength, FirstSize(r, f);
    R.FrameKeeps(r, n.s, now, f, R.RxEnv(StartOfReception(cap, len), CopyFits(cap, 1, count)));
  }

  lemma RefusedKeeps(cap: nat, r: RxConnection, n: Node, now: nat, f: R.CanFrame)
    requires Inv(cap, r, n) && !AsksSegment(r, n.s, now, f)
    requires !(FrameType(r.A(), f) == SINGLE && SingleCheck(r, f).ok)
    requires !(FrameType(r.A(), f) == FIRST && FirstCheck(r, f).ok && !r.functional)
    ensures Inv(cap, r, FrameStep(cap, r, n, now, f))
  {
    hide FirstCheck, SingleCheck, ConsecutiveCheck, ValidDl, BlockCfs;
    R.FrameKeeps(r, n.s, now, f, R.RxEnv(R.Reject, false));
  }

  lemma StepKeeps(cap: nat, r: RxConnection, n: Node, e: Event)
    requires Inv(cap, r, n)
    ensures Inv(cap, r, Step(cap, r, n, e))
  {
    match e
    case EFrame(now, f) => FrameKeeps(cap, r, n, now, f);
    case EMain(now, lowerOk) => MainKeeps(cap, r, n, now, lowerOk);
    case EConfirm(now) =>
    case ECancel =>
  }

  ghost function Run(cap: nat, r: RxConnection, events: seq<Event>): (n: Node)
    requires r.Valid() && cap > 0
    ensures Inv(cap, r, n)
  {
    if events == [] then Node(R.Init(), 0)
    else
      var n := Run(cap, r, events[..|events| - 1]);
      StepKeeps(cap, r, n, events[|events| - 1]);
      Step(cap, r, n, events[|events| - 1])
  }

  /**
   * In every run, whatever frames arrive, the AnchorCom buffer never answers overflow to a segment
   * of a granted block.
   */
  lemma NoOverflowInsideBlock(cap: nat, r: RxConnection, events: seq<Event>, now: nat, f: R.CanFrame)
    requires r.Valid() && cap > 0 && AsksSegment(r, Run(cap, r, events).s, now, f)
    ensures var n := Run(cap, r, events); CopyFits(cap, n.offset, SegmentSize(r, n.s))
  {
    SegmentFits(cap, r, Run(cap, r, events), now, f);
  }
}
