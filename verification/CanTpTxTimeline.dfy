/**
 * Everything a transmit channel does, read off its calls and what it did before: the value it returns, the frame it
 * hands down and the confirmation it gives are exactly what the segmentation, the times and the answers call for.
 */
module CanTpTxTimeline {
  import opened Bytes
  import opened CanTpConfig
  import opened CanTpFrames
  import opened CanTpSegments
  import opened CanTpBuffer
  import T = CanTpSender

  /** A call and what came of it: the value returned, the frame handed down, and the confirmations given above. */
  datatype Moment = Moment(e: T.Event, answer: Option<Result>, frame: Option<bytes>, confirmed: seq<Result>)

  ghost function MomentOf(c: TxConnection, s: T.State, e: T.Event): Moment
    requires T.Inv(c, s)
  {
    Moment(e,
           match e
           case ERequest(now, data) => Some(T.Transmit(c, s, now, data).1)
           case ECancel => Some(T.Cancel(c, s).1)
           case _ => None,
           if e.EMain? then T.Main(c, s, e.now, e.env).frame else None,
           New(s.results, T.Step(c, s, e).results))
  }

  function New(a: seq<Result>, b: seq<Result>): seq<Result> {
    if |a| <= |b| then b[|a|..] else []
  }

  /** The calls of a run with what they led to. */
  ghost function Timeline(c: TxConnection, events: seq<T.Event>): seq<Moment>
    requires c.Valid()
  {
    if events == [] then []
    else Timeline(c, events[..|events| - 1]) + [MomentOf(c, T.Run(c, events[..|events| - 1]), events[|events| - 1])]
  }

  // ----- The observer -------------------------------------------------------------------------------------

  /** No transfer; a frame to make, inside a block or not; a frame to be confirmed, if it went out; flow control to come. */
  datatype Stage = Free | Making(buffer: bool, inBlock: bool) | Confirming(out: bool) | Awaiting

  /** What the first clear-to-send of a transfer laid down. */
  datatype Terms = Terms(bs: byte, gap: nat)

  /** The SDU, how many of its frames are confirmed, the time of the last move, the terms, and what the block still allows. */
  datatype View = View(stage: Stage, sdu: bytes, done: nat, at: nat, terms: Option<Terms>, left: Option<nat>)

  /** The frame that the channel is at is one of the SDU's segmentation. */
  predicate Sound(c: TxConnection, v: View) {
    && ValidDl(c.txDl) && c.addressFormat <= 3
    && (v.stage != Free ==> HasFrame(c, |v.sdu|, v.done) && (v.done > 0 ==> IsFirst(TxPci(c, |v.sdu|))))
  }

  datatype Move = GiveUp | Hold(buffer: bool) | Attempt

  /** What a channel with a frame to make does in a main function call. */
  function Decide(c: TxConnection, v: View, now: nat, query: T.Query): Move
    requires Sound(c, v) && v.stage.Making?
  {
    var waited := Elapsed(now, v.at);
    if !v.stage.buffer && (waited >= c.csTicks || query.Refused?) then GiveUp
    else if !v.stage.buffer && !Offers(query, Carried(c, v.sdu, v.done)) then Hold(false)
    else if v.stage.inBlock && v.terms.Some? && waited < v.terms.value.gap then Hold(true)
    else Attempt
  }

  /** A frame is confirmed and another one follows. */
  function Proceed(v: View, now: nat): View {
    var v' := v.(done := v.done + 1, at := now);
    if v.done == 0 || v.left == Some(1) then v'.(stage := Awaiting, left := None)
    else v'.(stage := Making(false, true), left := if v.left.Some? && v.left.value > 0 then Some(v.left.value - 1) else None)
  }

  /** The reaction to flow control: too short or too late, clear to send, wait, or anything else. */
  datatype Reaction = Reject | Go(bs: byte, st: byte) | Rest

  function React(c: TxConnection, v: View, now: nat, f: bytes): Reaction
    requires c.addressFormat <= 3
  {
    if |f| < (if c.padding then 8 else 3 + c.A()) || (c.strict && Elapsed(now, v.at) > c.bsTicks) then Reject
    else match f[c.A()] % 16
      case 0 => Go(f[c.A() + 1], f[c.A() + 2])
      case 1 => Rest
      case _ => Reject
  }

  function Follow(c: TxConnection, v: View, m: Moment): View
    requires c.Valid()
  {
    match m.e
    case ERequest(now, data) =>
      if m.answer == Some(Ok) && data.Some? then View(Making(false, false), data.value, 0, now, None, None) else v
    case ECancel => if m.answer == Some(Ok) then v.(stage := Free) else v
    case EMain(now, env) =>
      if m.confirmed != [] then v.(stage := Free)
      else if !v.stage.Making? || !Sound(c, v) then v
      else (match Decide(c, v, now, env.query)
            case Attempt => v.(stage := Confirming(env.copyOk), at := now)
            case Hold(buffer) => v.(stage := v.stage.(buffer := buffer))
            case GiveUp => v)
    case EConfirm(now) =>
      if v.stage != Confirming(true) then v
      else if m.confirmed != [] then v.(stage := Free)
      else Proceed(v, now)
    case EFlowControl(now, f) =>
      if v.stage != Awaiting then v
      else match React(c, v, now, f)
        case Reject => v.(stage := Free)
        case Rest => v.(at := now)
        case Go(bs, st) =>
          var terms := if v.terms.Some? then v.terms.value else Terms(bs, T.STminTicks(c, st));
          v.(stage := Making(false, false), at := now, terms := Some(terms), left := if terms.bs == 0 then None else Some(terms.bs as nat))
  }

  // ----- What is due --------------------------------------------------------------------------------------

  /** A functional request must fit one frame; a physical one the length field that the source allows. */
  predicate Admissible(c: TxConnection, len: nat)
    requires c.Valid()
  {
    0 < len && if c.functional then IsSingle(TxPci(c, len)) else len <= if c.txDl > 8 then 0xFFFF else 0xFFF
  }

  predicate Quiet(m: Moment) {
    m.frame.None? && m.confirmed == []
  }

  predicate Fails(m: Moment) {
    m.frame.None? && m.confirmed == [NotOk]
  }

  /** The next frame of the segmentation goes down, unless the channel holds or gives up or a neighbour refuses. */
  ghost predicate Makes(c: TxConnection, v: View, now: nat, env: T.Env, m: Moment)
    requires c.Valid() && Sound(c, v) && v.stage.Making?
  {
    match Decide(c, v, now, env.query)
    case GiveUp => Fails(m)
    case Hold(_) => Quiet(m)
    case Attempt =>
      if !env.copyOk then Quiet(m)
      else if !env.lowerOk then Fails(m)
      else m.frame == Some(Frame(c, v.sdu, v.done)) && m.confirmed == []
  }

  /** What comes of a call is exactly what is due. */
  ghost predicate Due(c: TxConnection, v: View, m: Moment)
    requires c.Valid()
  {
    Sound(c, v) && match m.e
    case ERequest(_, data) =>
      Quiet(m) && m.answer == Some(if data.Some? && v.stage == Free && Admissible(c, |data.value|) then Ok else NotOk)
    case ECancel =>
      if v.stage == Free || c.cancelDisabled then m.answer == Some(NotOk) && Quiet(m) else m.answer == Some(Ok) && Fails(m)
    case EMain(now, env) =>
      m.answer.None? && (match v.stage
        case Free => Quiet(m)
        case Confirming(_) => if Elapsed(now, v.at) > c.asTicks then Fails(m) else Quiet(m)
        case Awaiting => if Elapsed(now, v.at) > c.bsTicks then Fails(m) else Quiet(m)
        case Making(_, _) => Makes(c, v, now, env, m))
    case EConfirm(_) =>
      m.answer.None? && if v.stage == Confirming(true) && !HasFrame(c, |v.sdu|, v.done + 1) then m.frame.None? && m.confirmed == [Ok] else Quiet(m)
    case EFlowControl(now, f) =>
      m.answer.None? && if v.stage == Awaiting && React(c, v, now, f) == Reject then Fails(m) else Quiet(m)
  }

  // ----- The channel does exactly that --------------------------------------------------------------------

  /** The source counts the frames of a block down from the smaller of what is allowed and what is left to send. */
  ghost predicate LeftAgrees(c: TxConnection, s: T.State, left: Option<nat>)
    requires c.Valid()
  {
    match left
    case None => s.blockCfs == BlockCfs(s.rem, c.Payload())
    case Some(n) => 0 < n && s.blockCfs == Min(n, BlockCfs(s.rem, c.Payload()))
  }

  ghost predicate StageAgrees(c: TxConnection, s: T.State, v: View)
    requires c.Valid()
  {
    match v.stage
    case Free => s.sub == T.Idle
    case Making(buffer, inBlock) =>
      && s.bufferAvailable == buffer && inBlock == (s.pci == Cf)
      && if v.done == 0 then s.sub == T.Accepted
         else s.sub == T.SendConsecutive && s.cfs + 1 == v.done && LeftAgrees(c, s, v.left)
    case Confirming(out) =>
      && s.sub == T.WaitConfirmation && s.locked == out && v.done == (if s.pci == Cf then s.cfs + 1 else 0)
      && (s.pci == Cf ==> LeftAgrees(c, s, v.left))
    case Awaiting => s.sub == T.WaitFlowControl && s.cfs + 1 == v.done
  }

  ghost predicate Agrees(c: TxConnection, s: T.State, v: View)
    requires c.Valid()
  {
    && StageAgrees(c, s, v)
    && (s.sub != T.Idle ==>
          && s.sdu == v.sdu && s.initialTicks == v.at
          && (s.stmin.None? <==> v.terms.None?)
          && (v.terms.Some? ==> s.stmin == Some(v.terms.value.gap) && s.bs == v.terms.value.bs))
  }

  ghost predicate Timely(c: TxConnection, s: T.State, v: View, e: T.Event)
    requires T.Inv(c, s)
  {
    var m := MomentOf(c, s, e);
    Due(c, v, m) && Agrees(c, T.Step(c, s, e), Follow(c, v, m))
  }

  lemma AgreesSound(c: TxConnection, s: T.State, v: View)
    requires T.Inv(c, s) && Agrees(c, s, v)
    ensures Sound(c, v)
  {
    hide BlockCfs, Accepts, LeftAgrees;
  }

  lemma RequestDue(c: TxConnection, s: T.State, v: View, e: T.Event)
    requires T.Inv(c, s) && Agrees(c, s, v) && e.ERequest?
    ensures Timely(c, s, v, e)
  {
    AgreesSound(c, s, v);
    if e.data.Some? {
      AdmissibleExactly(c, |e.data.value|);
    }
    hide Accepts, BlockCfs, HasFrame, Admissible, LeftAgrees;
  }

  lemma AdmissibleExactly(c: TxConnection, len: nat)
    requires c.Valid()
    ensures Admissible(c, len) <==> Accepts(c, len)
    ensures TxPci(c, len) != Cf
  {
    if c.functional { if len > 0 { FunctionalIsSingle(c, len); } } else { PhysicalLimit(c, len); }
  }

  lemma CancelDue(c: TxConnection, s: T.State, v: View)
    requires T.Inv(c, s) && Agrees(c, s, v)
    ensures Timely(c, s, v, T.ECancel)
  {
    AgreesSound(c, s, v);
    hide Accepts, BlockCfs, HasFrame, LeftAgrees, T.Inv;
  }

  /** What a main function call leaves alone. */
  lemma MainLeaves(c: TxConnection, s: T.State, now: nat, env: T.Env)
    requires T.Inv(c, s) && s.sub in {T.Accepted, T.SendConsecutive}
    ensures var s' := T.Main(c, s, now, env).s;
            s'.sub != T.Idle ==>
              && s'.stmin == s.stmin && s'.bs == s.bs && s'.cfs == s.cfs
              && (s.sub == T.SendConsecutive ==> s'.blockCfs == s.blockCfs && s'.rem == s.rem)
              && (s'.sub == T.WaitConfirmation ==> s'.pci == if s.sub == T.SendConsecutive then Cf else TxPci(c, |s.sdu|))
  {
    hide ValidDl, BlockCfs, Accepts, TxPci, Offset, T.CreateFrame, T.NextPayload, Elapsed;
  }

  lemma MakingDue(c: TxConnection, s: T.State, v: View, e: T.Event)
    requires T.Inv(c, s) && Agrees(c, s, v) && e.EMain? && v.stage.Making?
    ensures Timely(c, s, v, e)
  {
    hide T.Main, T.Inv, HasFrame, Frame, Carried, Elapsed, BlockCfs, ValidDl, TxPci;
    AgreesSound(c, s, v);
    MainLeaves(c, s, e.now, e.env);
    if v.done == 0 {
      AcceptedLaw(c, s, e.now, e.env);
      StartIs(c, s);
    } else {
      ConsecutiveLaw(c, s, e.now, e.env);
      TermsKnown(c, s);
    }
  }

  lemma StartIs(c: TxConnection, s: T.State)
    requires T.Inv(c, s) && s.sub == T.Accepted
    ensures !s.bufferAvailable && s.cfs == 0 && s.pci == TxPci(c, |s.sdu|) && s.pci != Cf && s.stmin.None?
  {
    AdmissibleExactly(c, s.len);
  }

  lemma TermsKnown(c: TxConnection, s: T.State)
    requires T.Inv(c, s) && s.sub == T.SendConsecutive
    ensures s.stmin.Some? && (s.pci == Cf || s.pci == Fc)
  {
  }

  lemma WaitingDue(c: TxConnection, s: T.State, v: View, e: T.Event)
    requires T.Inv(c, s) && Agrees(c, s, v) && e.EMain? && !v.stage.Making?
    ensures Timely(c, s, v, e)
  {
    AgreesSound(c, s, v);
    hide T.Inv, HasFrame, Frame, Carried, Elapsed, BlockCfs, LeftAgrees;
  }

  lemma ConfirmDue(c: TxConnection, s: T.State, v: View, e: T.Event)
    requires T.Inv(c, s) && Agrees(c, s, v) && e.EConfirm?
    ensures Timely(c, s, v, e)
  {
    AgreesSound(c, s, v);
    if s.sub == T.WaitConfirmation && s.locked {
      if s.pci == Cf { NextDue(c, s, v, e); } else { FirstDue(c, s, v, e); }
    } else {
      hide T.Inv, HasFrame, BlockCfs, LeftAgrees;
    }
  }

  lemma FirstDue(c: TxConnection, s: T.State, v: View, e: T.Event)
    requires T.Inv(c, s) && Agrees(c, s, v) && Sound(c, v) && e.EConfirm? && s.locked && s.pci != Cf
    ensures Timely(c, s, v, e)
  {
    hide Accepts, BlockCfs, LeftAgrees;
    FirstRest(c, s);
    hide ValidDl, Offset;
  }

  lemma FirstRest(c: TxConnection, s: T.State)
    requires T.Inv(c, s) && s.locked && s.pci != Cf
    ensures HasFrame(c, s.len, 1) <==> s.rem > c.txDl - c.A() - PciSize(s.pci)
    ensures s.len == |s.sdu| && s.blockCfs == 0 && s.cfs == 0 && s.pci != Fc
  {
    AdmissibleExactly(c, s.len);
  }

  lemma NextDue(c: TxConnection, s: T.State, v: View, e: T.Event)
    requires T.Inv(c, s) && Agrees(c, s, v) && Sound(c, v) && e.EConfirm? && s.locked && s.pci == Cf
    ensures Timely(c, s, v, e)
  {
    hide Accepts, ValidDl, TxPci, Offset, BlockCfs;
    OffsetStep(c, s.len, s.cfs);
    BlockCfsStep(s.rem, c.Payload());
    assert HasFrame(c, s.len, v.done + 1) <==> s.rem > c.Payload();
    hide HasFrame;
  }

  lemma FlowDue(c: TxConnection, s: T.State, v: View, e: T.Event)
    requires T.Inv(c, s) && Agrees(c, s, v) && e.EFlowControl?
    ensures Timely(c, s, v, e)
  {
    AgreesSound(c, s, v);
    hide Accepts, ValidDl, TxPci, Offset, BlockCfs, HasFrame, Elapsed, T.STminTicks;
  }

  lemma StepDue(c: TxConnection, s: T.State, v: View, e: T.Event)
    requires T.Inv(c, s) && Agrees(c, s, v)
    ensures Timely(c, s, v, e)
  {
    hide T.Inv, Agrees, Timely;
    match e
    case ERequest(_, _) => RequestDue(c, s, v, e);
    case ECancel => CancelDue(c, s, v);
    case EMain(_, _) => if v.stage.Making? { MakingDue(c, s, v, e); } else { WaitingDue(c, s, v, e); }
    case EConfirm(_) => ConfirmDue(c, s, v, e);
    case EFlowControl(_, _) => FlowDue(c, s, v, e);
  }

  // ----- Runs -----------------------------------------------------------------------------------------------

  function Observe(c: TxConnection, tl: seq<Moment>): View
    requires c.Valid()
  {
    if tl == [] then View(Free, [], 0, 0, None, None) else Follow(c, Observe(c, tl[..|tl| - 1]), tl[|tl| - 1])
  }

  lemma StartsAgreeing(c: TxConnection)
    requires c.Valid()
    ensures Agrees(c, T.Init(), View(Free, [], 0, 0, None, None))
  {
  }

  lemma {:induction false} RunAgrees(c: TxConnection, events: seq<T.Event>)
    requires c.Valid()
    ensures Agrees(c, T.Run(c, events), Observe(c, Timeline(c, events)))
  {
    hide T.Inv, T.Step, MomentOf, Agrees, Follow, Due;
    if events == [] {
      StartsAgreeing(c);
    } else {
      var before, e := events[..|events| - 1], events[|events| - 1];
      RunAgrees(c, before);
      StepDue(c, T.Run(c, before), Observe(c, Timeline(c, before)), e);
      assert Timeline(c, events)[..|Timeline(c, events)| - 1] == Timeline(c, before);
    }
  }

  /**
   * In every run each call does exactly what is due by the calls and outcomes before it: a request is taken if and only
   * if the channel is free and the length admissible; a main function call hands down the very next frame of the
   * segmentation as soon as buffer and separation time allow; N_As, N_Bs and N_Cs end a transfer exactly when they are
   * over; flow control opens blocks of the size first granted; and the last confirmation, and nothing else, gives E_OK.
   */
  lemma {:induction false} AlwaysDue(c: TxConnection, events: seq<T.Event>, k: nat)
    requires c.Valid() && k < |events|
    ensures |Timeline(c, events)| == |events| && Timeline(c, events)[k].e == events[k]
    ensures Due(c, Observe(c, Timeline(c, events)[..k]), Timeline(c, events)[k])
  {
    hide T.Inv, T.Step, Agrees, Follow, Due;
    var n := |events| - 1;
    var before := events[..n];
    TimelineSize(c, before);
    if k == n {
      RunAgrees(c, before);
      StepDue(c, T.Run(c, before), Observe(c, Timeline(c, before)), events[n]);
      assert Timeline(c, events)[..n] == Timeline(c, before);
    } else {
      AlwaysDue(c, before, k);
      assert Timeline(c, events)[..k] == Timeline(c, before)[..k] && Timeline(c, events)[k] == Timeline(c, before)[k];
    }
  }

  lemma {:induction false} TimelineSize(c: TxConnection, events: seq<T.Event>)
    requires c.Valid()
    ensures |Timeline(c, events)| == |events|
  {
    if events != [] { TimelineSize(c, events[..|events| - 1]); }
  }
}
