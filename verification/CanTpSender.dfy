/** One CanTp transmit channel: the five transmit sub-states and every API call that moves them. */
module CanTpSender {
  import opened Bytes
  import opened CanTpConfig
  import opened CanTpFrames
  import opened CanTpSegments

  datatype SubState = Idle | Accepted | WaitConfirmation | WaitFlowControl | SendConsecutive

  /** CANTP_FC_* */
  const CTS: nat := 0
  const WAIT: nat := 1
  const OVERFLOW: nat := 2

  /**
   * The channel record, its lock table entry, and the upper layer seen through PduR: the SDU, how many
   * bytes of it were copied out, and the confirmations given.
   * cfs counts the consecutive frames confirmed so far; the source does not store it.
   */
  datatype State = State(
    sub: SubState, locked: bool, bufferAvailable: bool, pci: Pci, flow: nat, sn: nat, bs: byte,
    blockCfs: nat, rem: nat, len: nat, initialTicks: nat, stmin: Option<nat>,
    sdu: bytes, cursor: nat, cfs: nat, results: seq<Result>)

  function Init(): State {
    State(Idle, false, false, SfCan, CTS, 0, 0, 0, 0, 0, 0, None, [], 0, 0, [])
  }

  /** Answer of PduR_CanTpCopyTxData to a zero-length query. */
  datatype Query = Available(n: nat) | Busy | Refused

  /** What the layers around the channel answer during one main function call. */
  datatype Env = Env(query: Query, copyOk: bool, lowerOk: bool)

  datatype Output = Output(s: State, frame: Option<bytes>)

  function Report(s: State, r: Result): State {
    s.(results := s.results + [r])
  }

  function Abort(s: State): State {
    Report(s, NotOk).(sub := Idle)
  }

  // ----- API --------------------------------------------------------------------------------------

  /** CanTp_Transmit; None stands for a null pointer. The second component is the return value. */
  function Transmit(c: TxConnection, s: State, now: nat, request: Option<bytes>): (State, Result)
    requires c.Valid()
  {
    if request.None? || !Accepts(c, |request.value|) || s.sub != Idle then (s, NotOk)
    else
      var len := |request.value|;
      (s.(pci := TxPci(c, len), len := len, initialTicks := now, bufferAvailable := false, stmin := None,
          sub := Accepted, sdu := request.value, cursor := 0, cfs := 0), Ok)
  }

  /** CanTp_CancelTransmit */
  function Cancel(c: TxConnection, s: State): (State, Result) {
    if c.cancelDisabled || s.sub == Idle then (s, NotOk)
    else (Abort(s).(locked := if s.sub == WaitConfirmation then false else s.locked), Ok)
  }

  /** CanTp_Prv_GetTxBuffer */
  function GetTxBuffer(c: TxConnection, s: State, payload: nat, query: Query, elapsed: nat): State {
    if s.bufferAvailable then s
    else if elapsed >= c.csTicks then Abort(s)
    else match query
      case Available(n) => if n >= payload then s.(bufferAvailable := true) else s
      case Busy => s
      case Refused => Abort(s)
  }

  /** Bytes that the next frame takes from the upper layer. */
  function NextPayload(c: TxConnection, s: State): nat
    requires c.Valid()
  {
    match s.pci
    case SfCan => s.rem
    case SfFd => s.rem
    case FfCan => c.txDl - c.A() - 2
    case FfFd => c.txDl - c.A() - 6
    case _ => Min(s.rem, c.Payload())
  }

  /** Frame creation for the current PCI; the upper layer hands out bytes from its cursor. */
  function CreateFrame(c: TxConnection, s: State): bytes
    requires Ready(c, s)
  {
    if IsSingle(s.pci) then SingleFrame(c, s.sdu)
    else if IsFirst(s.pci) then FirstFrame(c, s.sdu)
    else ConsecutiveFrame(c, s.sn, s.sdu[s.cursor..s.cursor + NextPayload(c, s)])
  }

  /** CanTp_Prv_CanIfTransmit: a failed copy leaves the channel waiting without a frame. */
  function CanIfTransmit(c: TxConnection, s: State, env: Env): Output
    requires Ready(c, s)
  {
    if !env.copyOk then Output(s, None)
    else
      var s' := s.(cursor := s.cursor + NextPayload(c, s));
      if env.lowerOk then Output(s'.(locked := true), Some(CreateFrame(c, s)))
      else Output(Abort(s').(locked := false), None)
  }

  /** CanTp_Prv_TxTransmissionRequestAccepted */
  function MainAccepted(c: TxConnection, s: State, now: nat, env: Env): Output
    requires Inv(c, s.(locked := false)) && s.sub == Accepted
  {
    var elapsed := Elapsed(now, s.initialTicks);
    if s.locked then
      if elapsed > c.asTicks then Output(Report(s, NotOk).(locked := false), None) else Output(s, None)
    else
      var s1 := s.(blockCfs := 0, rem := s.len, sn := 1);
      var s2 := GetTxBuffer(c, s1, NextPayload(c, s1), env.query, elapsed);
      if !s2.bufferAvailable then Output(s2, None)
      else
        var o := CanIfTransmit(c, s2.(initialTicks := now, sub := WaitConfirmation), env);
        o.(s := o.s.(bufferAvailable := false))
  }

  /** CanTp_Prv_TxSendConsecutiveFrame: STmin applies between frames of one block only. */
  function MainSendConsecutive(c: TxConnection, s: State, now: nat, env: Env): Output
    requires Inv(c, s) && s.sub == SendConsecutive
  {
    var elapsed := Elapsed(now, s.initialTicks);
    if s.locked then Output(s, None)
    else
      var s1 := GetTxBuffer(c, s, Min(s.rem, c.Payload()), env.query, elapsed);
      if s1.bufferAvailable && ((s.stmin.Some? && elapsed >= s.stmin.value) || s.pci != Cf) then
        var o := CanIfTransmit(c, s1.(pci := Cf, initialTicks := now, sub := WaitConfirmation), env);
        o.(s := o.s.(bufferAvailable := false))
      else Output(s1, None)
  }

  /** CanTp_MainFunction on this channel. */
  function Main(c: TxConnection, s: State, now: nat, env: Env): Output
    requires Inv(c, s)
  {
    match s.sub
    case Idle => Output(s, None)
    case Accepted => MainAccepted(c, s, now, env)
    case WaitConfirmation =>
      Output(if Elapsed(now, s.initialTicks) > c.asTicks then Abort(s).(locked := false) else s, None)
    case WaitFlowControl =>
      Output(if Elapsed(now, s.initialTicks) > c.bsTicks then Abort(s) else s, None)
    case SendConsecutive => MainSendConsecutive(c, s, now, env)
  }

  /** CanTp_TxConfirmation for a data frame of this channel. */
  function TxConfirmation(c: TxConnection, s: State, now: nat): State
    requires c.Valid()
  {
    if !s.locked || s.sub != WaitConfirmation then s
    else
      var copied := c.txDl - c.A() - PciSize(s.pci);
      var rem := if s.rem < copied then 0 else s.rem - copied;
      var s1 := s.(initialTicks := now, rem := rem, locked := false);
      var s2 := if s.pci != Cf then s1
                else s1.(sn := (s.sn + 1) % 16, blockCfs := Dec32(s.blockCfs), cfs := s.cfs + 1);
      if rem == 0 then Report(s2, Ok).(sub := Idle)
      else if s2.blockCfs != 0 then s2.(sub := SendConsecutive)
      else s2.(sub := WaitFlowControl, pci := Fc)
  }

  /** STmin byte of a flow control frame in ticks, as the tick type stores it. */
  function STminTicks(c: TxConnection, b: byte): (t: nat)
    ensures t < TICKS
  {
    var us := if b <= 0x7F then b as nat * 1000
              else if b < 0xF1 || b > 0xF9 then 127000
              else (b as nat % 16) * 100;
    us * c.ticksPerMs / 1000 % TICKS
  }

  /** CanTp_Prv_SetTxBlockInfo: BS and STmin are taken from the first CTS and then kept. */
  function SetTxBlockInfo(c: TxConnection, s: State, bs: byte, st: byte): State
    requires c.Valid()
  {
    var s1 := if s.stmin.None? then s.(bs := bs, stmin := Some(STminTicks(c, st))) else s;
    var all := BlockCfs(s.rem, c.Payload());
    s1.(blockCfs := if s1.bs == 0 || s1.bs > all then all else s1.bs)
  }

  /** CanTp_RxIndication for a flow control frame of this connection. */
  function FlowControl(c: TxConnection, s: State, now: nat, f: bytes): State
    requires c.Valid()
  {
    var x := FlowControlCheck(c, f);
    if s.sub != WaitFlowControl then s
    else if !x.ok then Abort(s)
    else if c.strict && Elapsed(now, s.initialTicks) > c.bsTicks then Abort(s)
    else
      var s1 := s.(initialTicks := now);
      if x.low == WAIT then s1.(flow := WAIT)
      else if x.low == CTS then
        SetTxBlockInfo(c, s1.(flow := CTS), At(f, x.offset), At(f, x.offset + 1)).(sub := SendConsecutive)
      else Abort(s1)
  }

  // ----- Invariant ----------------------------------------------------------------------------------

  /** What frame creation relies on. */
  ghost predicate Ready(c: TxConnection, s: State) {
    && c.Valid() && s.len == |s.sdu| && Accepts(c, s.len) && s.sn < 16
    && match s.pci
       case Cf => IsFirst(TxPci(c, s.len)) && s.cursor == s.len - s.rem && s.rem <= s.len
       case Fc => false
       case p => p == TxPci(c, s.len) && s.rem == s.len && s.cursor == 0
  }

  /** After k confirmed consecutive frames the counters stand where the segmentation says. */
  ghost predicate Progress(c: TxConnection, s: State) {
    && c.Valid() && IsFirst(TxPci(c, s.len)) && s.rem == s.len - Offset(c, s.len, s.cfs) && s.rem > 0
    && s.sn == (s.cfs + 1) % 16
  }

  ghost predicate Inv(c: TxConnection, s: State) {
    && c.Valid()
    && (s.locked ==> s.sub == WaitConfirmation)
    && (s.sub != Idle ==> s.len == |s.sdu| && Accepts(c, s.len))
    && match s.sub
       case Idle => true
       case Accepted => s.pci == TxPci(c, s.len) && s.cursor == 0 && s.cfs == 0 && !s.bufferAvailable
                       && s.stmin.None?
       case WaitFlowControl => Progress(c, s) && s.cursor == s.len - s.rem && s.pci == Fc && s.blockCfs == 0
                               && !s.bufferAvailable && (s.stmin.None? <==> s.cfs == 0)
       case SendConsecutive => Progress(c, s) && s.cursor == s.len - s.rem && (s.pci == Cf || s.pci == Fc)
                               && 0 < s.blockCfs <= BlockCfs(s.rem, c.Payload()) && s.stmin.Some?
       case WaitConfirmation =>
         && !s.bufferAvailable
         && if s.pci == Cf then
              && Progress(c, s) && 0 < s.blockCfs <= BlockCfs(s.rem, c.Payload()) && s.stmin.Some?
              && s.cursor == s.len - s.rem + (if s.locked then NextPayload(c, s) else 0)
            else
              && s.pci == TxPci(c, s.len) && s.rem == s.len && s.blockCfs == 0 && s.sn == 1 && s.cfs == 0
              && s.stmin.None?
              && s.cursor == if s.locked then NextPayload(c, s) else 0
  }

  // ----- Runs ---------------------------------------------------------------------------------------

  datatype Event =
    | ERequest(now: nat, data: Option<bytes>)
    | ECancel
    | EMain(now: nat, env: Env)
    | EConfirm(now: nat)
    | EFlowControl(now: nat, frame: bytes)

  function Step(c: TxConnection, s: State, e: Event): State
    requires Inv(c, s)
  {
    match e
    case ERequest(now, data) => Transmit(c, s, now, data).0
    case ECancel => Cancel(c, s).0
    case EMain(now, env) => Main(c, s, now, env).s
    case EConfirm(now) => TxConfirmation(c, s, now)
    case EFlowControl(now, f) => FlowControl(c, s, now, f)
  }

  lemma LockedWaits(c: TxConnection, s: State)
    ensures Inv(c, s) && s.locked ==> s.sub == WaitConfirmation
  {
  }

  lemma OnlyWaiting(c: TxConnection, s: State, now: nat)
    requires c.Valid()
    ensures !s.locked || s.sub != WaitConfirmation ==> TxConfirmation(c, s, now) == s
  {
  }

  lemma OnlyAwaiting(c: TxConnection, s: State, now: nat, f: bytes)
    requires c.Valid()
    ensures s.sub != WaitFlowControl ==> FlowControl(c, s, now, f) == s
  {
  }

  lemma ValidConnection(c: TxConnection, s: State)
    ensures Inv(c, s) ==> c.Valid()
  {
  }

  lemma UnlockedKeeps(c: TxConnection, s: State)
    ensures Inv(c, s) && s.sub == Accepted ==> Inv(c, s.(locked := false))
  {
  }

  lemma MainAcceptedKeeps(c: TxConnection, s: State, now: nat, env: Env)
    requires Inv(c, s) && s.sub == Accepted
    ensures Inv(c, MainAccepted(c, s, now, env).s)
  {
    var s1 := s.(blockCfs := 0, rem := s.len, sn := 1);
    var s2 := GetTxBuffer(c, s1, NextPayload(c, s1), env.query, Elapsed(now, s.initialTicks));
    assert s2.sub == Idle || s2 == s1.(bufferAvailable := s2.bufferAvailable);
  }

  /** What a main function call does to the position in the SDU, and the frame it emits. */
  ghost predicate Emission(c: TxConnection, s: State, o: Output, frame: bytes, pci: Pci) {
    if o.frame.Some? then
      o.frame.value == frame && o.s.sub == WaitConfirmation && o.s.locked && o.s.pci == pci
      && o.s.cfs == s.cfs && o.s.sdu == s.sdu
    else
      o.s.sub == Idle
      || (o.s.sdu == s.sdu && o.s.cfs == s.cfs && o.s.locked == s.locked
          && (o.s.sub == s.sub || (o.s.sub == WaitConfirmation && o.s.pci == pci)))
  }

  lemma SendConsecutiveEmits(c: TxConnection, s: State, now: nat, env: Env)
    requires Inv(c, s) && s.sub == SendConsecutive
    ensures Emission(c, s, MainSendConsecutive(c, s, now, env),
                     ConsecutiveFrame(c, s.sn, s.sdu[s.cursor..s.cursor + Min(s.rem, c.Payload())]), Cf)
  {
    hide ValidDl, BlockCfs, Accepts, TxPci, Offset, ConsecutiveFrame;
    var s1 := GetTxBuffer(c, s, Min(s.rem, c.Payload()), env.query, Elapsed(now, s.initialTicks));
    assert s1.sub == Idle || s1 == s.(bufferAvailable := s1.bufferAvailable);
  }

  lemma AcceptedEmits(c: TxConnection, s: State, now: nat, env: Env)
    requires Inv(c, s) && s.sub == Accepted
    ensures Emission(c, s, MainAccepted(c, s, now, env), Frame(c, s.sdu, 0), TxPci(c, s.len))
  {
    hide ValidDl, BlockCfs, Accepts, SingleFrame, FirstFrame;
    var s1 := s.(blockCfs := 0, rem := s.len, sn := 1);
    var s2 := GetTxBuffer(c, s1, NextPayload(c, s1), env.query, Elapsed(now, s.initialTicks));
    assert s2.sub == Idle || s2 == s1.(bufferAvailable := s2.bufferAvailable);
  }

  lemma MainSendConsecutiveKeeps(c: TxConnection, s: State, now: nat, env: Env)
    requires Inv(c, s) && s.sub == SendConsecutive
    ensures Inv(c, MainSendConsecutive(c, s, now, env).s)
  {
    hide ValidDl, BlockCfs, CreateFrame, Accepts, TxPci, Offset;
    var s1 := GetTxBuffer(c, s, Min(s.rem, c.Payload()), env.query, Elapsed(now, s.initialTicks));
    assert s1.sub == Idle || s1 == s.(bufferAvailable := s1.bufferAvailable);
  }

  lemma MainKeeps(c: TxConnection, s: State, now: nat, env: Env)
    ensures Inv(c, s) ==> Inv(c, Main(c, s, now, env).s)
  {
    if Inv(c, s) {
      if s.sub == Accepted { MainAcceptedKeeps(c, s, now, env); }
      if s.sub == SendConsecutive { MainSendConsecutiveKeeps(c, s, now, env); }
    }
  }

  lemma ConfirmationKeeps(c: TxConnection, s: State, now: nat)
    ensures Inv(c, s) ==> Inv(c, TxConfirmation(c, s, now))
  {
    if Inv(c, s) {
      if s.locked {
        if s.pci == Cf { ConsecutiveConfirmed(c, s, now); } else { StartConfirmed(c, s, now); }
      }
    }
  }

  lemma StartConfirmed(c: TxConnection, s: State, now: nat)
    requires Inv(c, s) && s.locked && s.pci != Cf
    ensures Inv(c, TxConfirmation(c, s, now))
  {
    var s' := TxConfirmation(c, s, now);
    if IsFirst(s.pci) {
      assert s'.rem == s.len - FirstPayload(c, s.len) == s.len - Offset(c, s.len, 0);
    }
  }

  lemma ConsecutiveConfirmed(c: TxConnection, s: State, now: nat)
    requires Inv(c, s) && s.locked && s.pci == Cf
    ensures Inv(c, TxConfirmation(c, s, now))
  {
    hide ValidDl, Accepts, TxPci, BlockCfs, Offset;
    OffsetStep(c, s.len, s.cfs);
    BlockCfsStep(s.rem, c.Payload());
    NextNumber(s.cfs);
  }

  lemma NextNumber(k: nat)
    ensures ((k + 1) % 16 + 1) % 16 == (k + 2) % 16
  {
  }

  lemma TransmitKeeps(c: TxConnection, s: State, now: nat, data: Option<bytes>)
    ensures Inv(c, s) ==> Inv(c, Transmit(c, s, now, data).0)
  {
  }

  lemma CancelKeeps(c: TxConnection, s: State)
    ensures Inv(c, s) ==> Inv(c, Cancel(c, s).0)
  {
  }

  lemma FlowControlKeeps(c: TxConnection, s: State, now: nat, f: bytes)
    ensures Inv(c, s) ==> Inv(c, FlowControl(c, s, now, f))
  {
  }

  lemma StepKeeps(c: TxConnection, s: State, e: Event)
    ensures Inv(c, s) ==> Inv(c, Step(c, s, e))
  {
    if Inv(c, s) {
      match e
      case ERequest(now, data) => TransmitKeeps(c, s, now, data);
      case ECancel => CancelKeeps(c, s);
      case EMain(now, env) => MainKeeps(c, s, now, env);
      case EConfirm(now) => ConfirmationKeeps(c, s, now);
      case EFlowControl(now, f) => FlowControlKeeps(c, s, now, f);
    }
  }

  /** The state after any sequence of events on a freshly initialised channel. */
  ghost function Run(c: TxConnection, events: seq<Event>): (s: State)
    requires c.Valid()
    ensures Inv(c, s)
  {
    if events == [] then Init()
    else
      var s := Run(c, events[..|events| - 1]);
      StepKeeps(c, s, events[|events| - 1]);
      Step(c, s, events[|events| - 1])
  }

  function Busy(s: State): nat {
    if s.sub == Idle then 0 else 1
  }

  /** The event is a request that CanTp_Transmit accepts in this state. */
  function Admits(c: TxConnection, s: State, e: Event): nat
    requires c.Valid()
  {
    if e.ERequest? && Transmit(c, s, e.now, e.data).1 == Ok then 1 else 0
  }

  /** Requests accepted along a run. */
  ghost function AcceptedCount(c: TxConnection, events: seq<Event>): nat
    requires c.Valid()
  {
    if events == [] then 0
    else AcceptedCount(c, events[..|events| - 1]) + Admits(c, Run(c, events[..|events| - 1]), events[|events| - 1])
  }

  /** One step adds a confirmation exactly when it frees the channel. */
  lemma StepBalance(c: TxConnection, s: State, e: Event)
    requires Inv(c, s)
    ensures var s' := Step(c, s, e); |s'.results| + Busy(s') == |s.results| + Busy(s) + Admits(c, s, e)
  {
    match e
    case ERequest(now, data) =>
    case ECancel =>
    case EMain(now, env) => MainBalance(c, s, now, env);
    case EConfirm(now) =>
    case EFlowControl(now, f) =>
  }

  lemma MainBalance(c: TxConnection, s: State, now: nat, env: Env)
    requires Inv(c, s)
    ensures var s' := Main(c, s, now, env).s;
            |s'.results| + Busy(s') == |s.results| + Busy(s)
            && (s'.results == s.results || s'.results == s.results + [NotOk])
  {
    hide CreateFrame, NextPayload, Accepts, ValidDl, TxPci, BlockCfs, Offset;
    match s.sub
    case Idle =>
    case Accepted =>
      var s1 := s.(blockCfs := 0, rem := s.len, sn := 1);
      var s2 := GetTxBuffer(c, s1, NextPayload(c, s1), env.query, Elapsed(now, s.initialTicks));
      assert |s2.results| + Busy(s2) == |s.results| + 1;
    case WaitConfirmation =>
    case WaitFlowControl =>
    case SendConsecutive =>
      var s2 := GetTxBuffer(c, s, Min(s.rem, c.Payload()), env.query, Elapsed(now, s.initialTicks));
      assert |s2.results| + Busy(s2) == |s.results| + 1;
  }

  /**
   * Confirmation accounting: in every run each accepted request is confirmed exactly once, except the one
   * the channel is still busy with, and the lock table names the channel only while it waits.
   */
  lemma {:induction false} ConfirmationsConserved(c: TxConnection, events: seq<Event>)
    requires c.Valid()
    ensures var s := Run(c, events);
            AcceptedCount(c, events) == |s.results| + Busy(s) && (s.locked ==> s.sub == WaitConfirmation)
  {
    if events != [] {
      ConfirmationsConserved(c, events[..|events| - 1]);
      StepBalance(c, Run(c, events[..|events| - 1]), events[|events| - 1]);
    }
  }

  /** A positive confirmation is given only once every byte of the SDU went into frames. */
  lemma PositiveMeansComplete(c: TxConnection, s: State, e: Event)
    requires Inv(c, s) && Step(c, s, e).results == s.results + [Ok]
    ensures e.EConfirm? && s.locked && s.cursor == |s.sdu|
  {
    assert Step(c, s, e).results[|s.results|] == Ok;
    match e
    case ERequest(now, data) =>
    case ECancel =>
    case EMain(now, env) => MainBalance(c, s, now, env);
    case EConfirm(now) => assert s.locked;
    case EFlowControl(now, f) =>
  }
}
