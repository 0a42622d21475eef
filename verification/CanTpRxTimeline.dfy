/**
 * Everything a receive channel does, read off its calls and what it did before: the SDUs it delivers, the failures it
 * reports, the flow control it sends and the value it returns are exactly what the frames, times and answers call for.
 */
module CanTpRxTimeline {
  import opened Bytes
  import opened CanTpConfig
  import opened CanTpFrames
  import T = CanTpTiming
  import R = CanTpReceiver

  /** A call and what came of it: the value returned, flow control sent, SDUs delivered, and E_NOT_OK indications. */
  datatype Moment = Moment(e: R.Event, answer: Option<Result>, frame: Option<bytes>, delivered: seq<bytes>, failed: int)

  ghost function MomentOf(r: RxConnection, s: R.State, e: R.Event): Moment
    requires R.Inv(r, s)
  {
    var s' := R.Step(r, s, e);
    Moment(e, if e.ECancel? then Some(R.Cancel(r, s).1) else None,
           if e.EMain? then R.Main(r, s, e.now, e.menv).frame else None,
           New(s.delivered, s'.delivered), s'.failures - s.failures)
  }

  function New(a: seq<bytes>, b: seq<bytes>): seq<bytes> {
    if |a| <= |b| then b[|a|..] else []
  }

  ghost function Timeline(r: RxConnection, events: seq<R.Event>): seq<Moment>
    requires r.Valid()
  {
    if events == [] then []
    else Timeline(r, events[..|events| - 1]) + [MomentOf(r, T.RxRun(r, events[..|events| - 1]), events[|events| - 1])]
  }

  // ----- What a frame says --------------------------------------------------------------------------------

  /** The SDU in a single frame: a classic length of one to seven, or a CAN FD length that needs more than eight bytes. */
  function Single(r: RxConnection, f: bytes): Option<bytes>
    requires r.Valid()
  {
    var a := r.A();
    if |f| <= 8 then
      var n := At(f, a) % 16;
      if 0 < n <= 7 - a && a + 1 + n <= |f| && (r.padding ==> |f| == 8) then Some(f[a + 1..a + 1 + n]) else None
    else
      var n := f[a + 1];
      if f[a] % 16 == 0 && n > 7 - a && a + 2 + n <= |f| <= 64 && (r.padding ==> CanDl(a + 2 + n) <= |f|)
      then Some(f[a + 2..a + 2 + n]) else None
  }

  /** The announced length and the bytes of a first frame. */
  datatype Opening = Opening(len: nat, data: bytes)

  /** A first frame fills a CAN FD length, and announces an SDU that no single frame of this length could carry. */
  function First(r: RxConnection, f: bytes): Option<Opening>
    requires r.Valid()
  {
    var a := r.A();
    if !ValidDl(|f|) then None
    else
      var short := f[a] as nat % 16 * 0x100 + f[a + 1] as nat;
      var long := f[a + 2] as nat * 0x100_0000 + f[a + 3] as nat * 0x1_0000 + f[a + 4] as nat * 0x100 + f[a + 5] as nat;
      if short != 0 then
        if short >= (if |f| > 8 then |f| - a - 1 else 8 - a) then Some(Opening(short, f[a + 2..])) else None
      else if long > 4095 then Some(Opening(long, f[a + 6..]))
      else None
  }

  /** The segment in a consecutive frame, when frames have dl bytes and rem bytes are missing. */
  function Consecutive(r: RxConnection, dl: nat, rem: nat, f: bytes): Option<bytes>
    requires r.Valid() && ValidDl(dl)
  {
    var at := r.A() + 1;
    var n := Min(rem, dl - at);
    if |f| >= (if r.padding then CanDl(at + n) else at + n) then Some(f[at..at + n]) else None
  }

  lemma SingleExactly(r: RxConnection, f: R.CanFrame)
    requires r.Valid()
    ensures var x := SingleCheck(r, f);
            && (x.ok <==> Single(r, f).Some?)
            && (x.ok ==> x.offset + x.sduLength <= |f| && Single(r, f) == Some(f[x.offset..x.offset + x.sduLength]))
  {
  }

  lemma FirstExactly(r: RxConnection, f: R.CanFrame)
    requires r.Valid() && !r.functional
    ensures var x := FirstCheck(r, f);
            && (x.ok <==> First(r, f).Some?)
            && (x.ok ==> x.offset < |f| && First(r, f) == Some(Opening(x.sduLength, f[x.offset..])))
  {
  }

  lemma ConsecutiveExactly(r: RxConnection, dl: nat, rem: nat, f: R.CanFrame)
    requires r.Valid() && ValidDl(dl)
    ensures var x := ConsecutiveCheck(r, dl, rem, f);
            && (x.ok <==> Consecutive(r, dl, rem, f).Some?) && x.low == At(f, r.A()) % 16
            && (x.ok ==> x.canDl >= x.offset && x.offset + Min(rem, x.canDl - x.offset) <= |f|
                         && Consecutive(r, dl, rem, f) == Some(f[x.offset..x.offset + Min(rem, x.canDl - x.offset)]))
  {
  }

  // ----- The observer -------------------------------------------------------------------------------------

  /** No reception; a decision to be sent; an SDU to be refused; flow control to be confirmed; segments to come. */
  datatype Stage = Free | Deciding | Refusing | Saying(status: nat) | Collecting

  /**
   * What was received of the SDU and what is missing, the frame length, the time of the last move, the segments taken,
   * the block size once granted, the segments that the block still allows, wait frames sent, and whether the confirmation
   * of a flow control frame is outstanding.
   */
  datatype View = View(
    stage: Stage, copied: bytes, rem: nat, dl: nat, at: nat, taken: nat, grant: Option<byte>, left: Option<nat>,
    waits: nat, owed: bool)

  predicate Sound(r: RxConnection, v: View) {
    r.addressFormat <= 3 && (v.stage != Free ==> ValidDl(v.dl))
  }

  function Payload(r: RxConnection, v: View): (n: nat)
    requires Sound(r, v) && v.stage != Free
    ensures n > 0
  {
    v.dl - r.A() - 1
  }

  /** The block size for this free buffer; the number of frames that fit counts in eight bits. */
  function BlockSize(r: RxConnection, v: View, free: nat): byte
    requires Sound(r, v) && v.stage != Free
  {
    if v.grant.Some? then v.grant.value
    else if free >= v.rem then r.bsMax
    else
      var fit: byte := free / Payload(r, v) % 256;
      if r.bsMax != 0 && fit > r.bsMax then r.bsMax else fit
  }

  predicate MayGrant(r: RxConnection, v: View, free: nat)
    requires Sound(r, v) && v.stage != Free
  {
    free >= v.rem || (BlockSize(r, v, free) != 0 && BlockSize(r, v, free) * Payload(r, v) <= free)
  }

  /** A wait frame is due, either the first one or since N_Br is over. */
  predicate WaitDue(r: RxConnection, v: View, now: nat) {
    v.waits == 0 || Elapsed(now, v.at) >= r.brTicks
  }

  /** The flow status that a main function call has to send, if any. */
  function Status(r: RxConnection, v: View, now: nat, free: Option<nat>): Option<nat>
    requires Sound(r, v)
  {
    if v.owed then None
    else if v.stage == Refusing then Some(R.OVERFLOW)
    else if v.stage != Deciding || free.None? then None
    else if MayGrant(r, v, free.value) then Some(R.CTS)
    else if WaitDue(r, v, now) && v.waits < r.fcWaitMax then Some(R.WAIT)
    else None
  }

  function Said(r: RxConnection, v: View, now: nat, status: nat, free: Option<nat>): View
    requires Sound(r, v) && v.stage != Free
  {
    var v' := v.(stage := Saying(status), at := now, owed := true);
    if status == R.CTS && free.Some? then
      var b := BlockSize(r, v, free.value);
      v'.(grant := Some(b), left := if b == 0 then None else Some(b as nat))
    else if status == R.WAIT then v'.(waits := v.waits + 1)
    else v'
  }

  /** A segment is taken: it is the last one, or the last one of its block, or more of the block follow. */
  function Taken(v: View, now: nat, data: bytes): View
    requires |data| <= v.rem
  {
    var v' := v.(copied := v.copied + data, rem := v.rem - |data|, taken := v.taken + 1, at := now);
    if v'.rem == 0 then v'.(stage := Free)
    else if v.left == Some(1) then v'.(stage := Deciding, waits := 0, left := None)
    else v'.(left := if v.left.Some? && v.left.value > 0 then Some(v.left.value - 1) else None)
  }

  /** The upper layer lets the SDU in, as far as this many bytes of it. */
  predicate LetIn(env: R.RxEnv, n: nat) {
    env.start.Grant? && env.start.size >= n && env.copyOk
  }

  /** The frame is the next one of the block, in time, and the upper layer takes it. */
  predicate Fits(r: RxConnection, v: View, now: nat, f: bytes, env: R.RxEnv)
    requires Sound(r, v) && v.stage == Collecting
  {
    && Consecutive(r, v.dl, v.rem, f).Some? && At(f, r.A()) % 16 == (v.taken + 1) % 16 && env.copyOk
    && !(r.strict && Elapsed(now, v.at) > r.crTicks)
  }

  function FollowFrame(r: RxConnection, v: View, now: nat, f: bytes, env: R.RxEnv): View
    requires Sound(r, v)
  {
    var t := At(f, r.A()) / 16;
    var broken := if v.stage == Collecting then v.(stage := Free) else v;
    if t == 0 then
      var x := Single(r, f);
      if x.None? then broken
      else v.(stage := Free, rem := |x.value|, dl := |f|)
    else if r.functional then v
    else if t == 1 then
      var x := First(r, f);
      if x.None? then broken
      else if LetIn(env, |x.value.data|) && |x.value.data| <= x.value.len then
        View(Deciding, x.value.data, x.value.len - |x.value.data|, |f|, now, 0, None, None, 0, v.owed)
      else v.(stage := if env.start.TooLong? then Refusing else Free, dl := |f|, at := now)
    else if t == 2 && v.stage == Collecting then
      if Fits(r, v, now, f, env) then Taken(v, now, Consecutive(r, v.dl, v.rem, f).value) else broken
    else v
  }

  function Follow(r: RxConnection, v: View, m: Moment): View
    requires r.Valid()
  {
    if !Sound(r, v) then v
    else match m.e
      case EFrame(now, f, env) => FollowFrame(r, v, now, f, env)
      case EMain(now, env) =>
        if m.failed > 0 then v.(stage := Free, owed := v.owed && !v.stage.Saying?)
        else if m.frame.Some? && v.stage != Free && Status(r, v, now, env.free).Some?
        then Said(r, v, now, Status(r, v, now, env.free).value, env.free)
        else v
      case EConfirm(now) =>
        if !v.stage.Saying? then v
        else v.(stage := if v.stage.status == R.CTS then Collecting else if v.stage.status == R.WAIT then Deciding else Free,
                at := now, owed := false)
      case ECancel => if m.answer == Some(Ok) then v.(stage := Free, owed := v.owed && !v.stage.Saying?) else v
  }

  // ----- What is due --------------------------------------------------------------------------------------

  predicate Outcome(m: Moment, delivered: seq<bytes>, failed: nat) {
    m.answer.None? && m.frame.None? && m.delivered == delivered && m.failed == failed
  }

  /** A reception in progress gives way to a new one and is reported. */
  function Displaced(v: View): nat {
    if v.stage == Free then 0 else 1
  }

  ghost predicate FrameDue(r: RxConnection, v: View, now: nat, f: bytes, env: R.RxEnv, m: Moment)
    requires Sound(r, v)
  {
    var t := At(f, r.A()) / 16;
    var broken := if v.stage == Collecting then 1 else 0;
    if t == 0 then
      var x := Single(r, f);
      if x.None? then Outcome(m, [], broken)
      else if LetIn(env, |x.value|) then Outcome(m, [x.value], Displaced(v))
      else Outcome(m, [], Displaced(v) + if env.start.Reject? then 0 else 1)
    else if r.functional then Outcome(m, [], 0)
    else if t == 1 then
      var x := First(r, f);
      if x.None? then Outcome(m, [], broken)
      else Outcome(m, [], Displaced(v) + if env.start.Grant? && !LetIn(env, |x.value.data|) then 1 else 0)
    else if t == 2 && v.stage == Collecting then
      if !Fits(r, v, now, f, env) then Outcome(m, [], 1)
      else
        var data := Consecutive(r, v.dl, v.rem, f).value;
        Outcome(m, if |data| == v.rem then [v.copied + data] else [], 0)
    else Outcome(m, [], 0)
  }

  /** Flow control goes out as it is due; a query that fails, waits used up and a refusal from below each end the reception. */
  ghost predicate DecisionDue(r: RxConnection, v: View, now: nat, env: R.MainEnv, m: Moment)
    requires Sound(r, v) && v.stage in {Deciding, Refusing} && !v.owed
  {
    var status := Status(r, v, now, env.free);
    if status.Some? then
      if !env.lowerOk then Outcome(m, [], 1)
      else
        && m.answer.None? && m.delivered == [] && m.failed == 0 && status.value < 16
        && m.frame == Some(FlowControlFrame(r, status.value, if v.stage == Refusing then 0 else BlockSize(r, v, env.free.value)))
    else if env.free.None? then Outcome(m, [], if WaitDue(r, v, now) && v.waits >= r.fcWaitMax then 2 else 1)
    else Outcome(m, [], if WaitDue(r, v, now) then 1 else 0)
  }

  ghost predicate Due(r: RxConnection, v: View, m: Moment)
    requires r.Valid()
  {
    Sound(r, v) && match m.e
      case EFrame(now, f, env) => FrameDue(r, v, now, f, env, m)
      case EMain(now, env) =>
        (match v.stage
         case Free => Outcome(m, [], 0)
         case Saying(_) => Outcome(m, [], if Elapsed(now, v.at) > r.arTicks then 1 else 0)
         case Collecting => Outcome(m, [], if Elapsed(now, v.at) > r.crTicks then 1 else 0)
         case _ => if v.owed then Outcome(m, [], 0) else DecisionDue(r, v, now, env, m))
      case EConfirm(_) => Outcome(m, [], if v.stage == Saying(R.OVERFLOW) then 1 else 0)
      case ECancel =>
        && m.frame.None? && m.delivered == []
        && var may := v.stage != Free && v.rem > v.dl - r.A() - 1;
           m.answer == Some(if may then Ok else NotOk) && m.failed == if may then 1 else 0
  }

  // ----- The channel does exactly that --------------------------------------------------------------------

  function SubOf(stage: Stage): R.SubState {
    match stage
    case Free => R.Idle
    case Deciding => R.SendFlowControl
    case Refusing => R.SendFlowControl
    case Saying(_) => R.WaitFcConfirmation
    case Collecting => R.WaitConsecutive
  }

  predicate FlowOf(stage: Stage, flow: nat) {
    match stage
    case Free => true
    case Deciding => flow == R.WAIT
    case Refusing => flow == R.OVERFLOW
    case Saying(status) => flow == status
    case Collecting => flow == R.CTS
  }

  ghost predicate Agrees(r: RxConnection, s: R.State, v: View)
    requires r.Valid()
  {
    && Sound(r, v) && s.sub == SubOf(v.stage) && FlowOf(v.stage, s.flow) && s.locked == v.owed && s.rem == v.rem && s.rxDl == v.dl
    && (v.stage.Saying? ==> v.owed)
    && (v.stage != Free ==> s.initialTicks == v.at)
    && (v.stage != Free && s.flow == R.OVERFLOW ==> s.bs == 0)
    && (v.stage != Free && s.flow != R.OVERFLOW ==>
          && s.copied == v.copied && s.sn == (v.taken + 1) % 16 && (s.bsOpen <==> v.grant.None?)
          && (v.grant.Some? ==> s.bs == v.grant.value))
    && (v.stage in {Deciding, Saying(R.WAIT)} ==> s.fcWait == v.waits)
    && (v.stage in {Saying(R.CTS), Collecting} ==> s.blockCfs == if v.left.Some? then v.left.value else BlockCfs(s.rem, s.rxDl - r.A() - 1))
  }

  ghost predicate Timely(r: RxConnection, s: R.State, v: View, e: R.Event)
    requires R.Inv(r, s)
  {
    var m := MomentOf(r, s, e);
    Due(r, v, m) && Agrees(r, R.Step(r, s, e), Follow(r, v, m))
  }

  /** What a step changes of the history. */
  ghost predicate Adds(s: R.State, s': R.State, delivered: seq<bytes>, failed: nat) {
    s'.delivered == s.delivered + delivered && s'.failures == s.failures + failed
  }

  lemma AddsOutcome(r: RxConnection, s: R.State, e: R.Event, delivered: seq<bytes>, failed: nat)
    requires R.Inv(r, s) && Adds(s, R.Step(r, s, e), delivered, failed) && !e.ECancel?
    requires e.EMain? ==> R.Main(r, s, e.now, e.menv).frame.None?
    ensures Outcome(MomentOf(r, s, e), delivered, failed)
  {
    hide R.Step, R.Inv, R.Main;
  }

  /** The channel is free; what it knows of the last reception is rem and dl. */
  lemma FreeAgrees(r: RxConnection, s: R.State, v: View)
    requires r.Valid() && s.sub == R.Idle && v.stage == Free && s.locked == v.owed && s.rem == v.rem && s.rxDl == v.dl
    ensures Agrees(r, s, v)
  {
  }

  lemma Broken(r: RxConnection, s: R.State, v: View)
    requires R.Inv(r, s) && Agrees(r, s, v)
    ensures var s' := R.LengthError(s);
            && Adds(s, s', [], if v.stage == Collecting then 1 else 0)
            && Agrees(r, s', if v.stage == Collecting then v.(stage := Free) else v)
  {
    hide ValidDl, BlockCfs;
  }

  lemma SingleStep(r: RxConnection, s: R.State, now: nat, f: R.CanFrame, env: R.RxEnv)
    requires r.Valid()
    ensures var s', x := R.RxSingle(r, s, now, f, env), Single(r, f);
            if x.None? then s' == R.LengthError(s)
            else
              && s'.sub == R.Idle && s'.locked == s.locked && s'.rem == |x.value| && s'.rxDl == |f|
              && Adds(s, s', if LetIn(env, |x.value|) then [x.value] else [],
                      (if s.sub == R.Idle then 0 else 1) + (if LetIn(env, |x.value|) || env.start.Reject? then 0 else 1))
  {
    SingleExactly(r, f);
    hide SingleCheck, Single;
  }

  lemma SingleDue(r: RxConnection, s: R.State, v: View, e: R.Event)
    requires R.Inv(r, s) && Agrees(r, s, v) && e.EFrame? && At(e.frame, r.A()) / 16 == 0
    ensures Timely(r, s, v, e)
  {
    R.ValidConnection(r, s);
    hide R.RxSingle, R.RxFirst, R.RxConsecutive, R.LengthError, Single, First, Consecutive, ValidDl, BlockCfs, Elapsed, R.Inv;
    SingleStep(r, s, e.now, e.frame, e.env);
    Broken(r, s, v);
    var s', x := R.Step(r, s, e), Single(r, e.frame);
    assert s' == R.RxSingle(r, s, e.now, e.frame, e.env);
    if x.None? {
      AddsOutcome(r, s, e, [], if v.stage == Collecting then 1 else 0);
    } else {
      AddsOutcome(r, s, e, if LetIn(e.env, |x.value|) then [x.value] else [],
                  Displaced(v) + (if LetIn(e.env, |x.value|) || e.env.start.Reject? then 0 else 1));
      FreeAgrees(r, s', v.(stage := Free, rem := |x.value|, dl := |e.frame|));
      hide Agrees;
    }
  }

  /** The upper layer's answer to a first frame with these bytes: let in, too long, or not let in. */
  ghost predicate Opened(s: R.State, s': R.State, len: nat, data: bytes, env: R.RxEnv) {
    && s'.locked == s.locked && s'.rxDl == s.rxDl && s'.initialTicks == s.initialTicks
    && Adds(s, s', [], if env.start.Grant? && !LetIn(env, |data|) then 1 else 0)
    && if LetIn(env, |data|) then
         && s'.sub == R.SendFlowControl && s'.flow == R.WAIT && s'.rem == len - |data|
         && s'.copied == data && s'.sn == 1 && s'.bsOpen && s'.fcWait == 0
       else
         && s'.rem == s.rem && s'.sub == (if env.start.TooLong? then R.SendFlowControl else R.Idle)
         && (env.start.TooLong? ==> s'.flow == R.OVERFLOW && s'.bs == 0)
  }

  lemma StartOpens(s: R.State, data: bytes, len: nat, env: R.RxEnv)
    requires s.sub == R.Idle && s.flow == R.WAIT && |data| <= len
    ensures Opened(s, R.StartReception(s, data, len - |data|, env), len, data, env)
  {
  }

  /** The channel as the first frame finds it: a reception in progress was given up. */
  function Cleared(s: R.State, len: nat, dl: nat, now: nat): R.State {
    R.Restart(s).(len := len, rxDl := dl, initialTicks := now, sub := R.Idle, flow := R.WAIT)
  }

  lemma OpeningStep(r: RxConnection, s: R.State, now: nat, f: R.CanFrame, env: R.RxEnv)
    requires r.Valid() && !r.functional
    ensures var s', x := R.RxFirst(r, s, now, f, env), First(r, f);
            if x.None? then s' == R.LengthError(s)
            else
              && |x.value.data| < x.value.len && ValidDl(|f|)
              && Opened(Cleared(s, x.value.len, |f|, now), s', x.value.len, x.value.data, env)
  {
    FirstExactly(r, f);
    R.FirstLeavesRemainder(r, f);
    hide FirstCheck, First, ValidDl, R.StartReception, Opened;
    var x := First(r, f);
    if x.Some? { StartOpens(Cleared(s, x.value.len, |f|, now), x.value.data, x.value.len, env); }
  }

  lemma OpenedAdds(s: R.State, v: View, s': R.State, now: nat, dl: nat, len: nat, data: bytes, env: R.RxEnv)
    requires (s.sub == R.Idle <==> v.stage == Free) && Opened(Cleared(s, len, dl, now), s', len, data, env)
    ensures Adds(s, s', [], Displaced(v) + if env.start.Grant? && !LetIn(env, |data|) then 1 else 0)
  {
  }

  lemma OpenedAgrees(r: RxConnection, s: R.State, v: View, s': R.State, now: nat, dl: nat, len: nat, data: bytes, env: R.RxEnv)
    requires r.Valid() && Agrees(r, s, v) && ValidDl(dl) && |data| < len && Opened(Cleared(s, len, dl, now), s', len, data, env)
    ensures Agrees(r, s', if LetIn(env, |data|) then View(Deciding, data, len - |data|, dl, now, 0, None, None, 0, v.owed)
                          else v.(stage := if env.start.TooLong? then Refusing else Free, dl := dl, at := now))
  {
    hide ValidDl, BlockCfs;
  }

  lemma OpeningDue(r: RxConnection, s: R.State, v: View, e: R.Event)
    requires R.Inv(r, s) && Agrees(r, s, v) && e.EFrame? && At(e.frame, r.A()) / 16 == 1 && !r.functional
    ensures Timely(r, s, v, e)
  {
    R.ValidConnection(r, s);
    hide R.RxSingle, R.RxFirst, R.RxConsecutive, R.LengthError, Single, First, Consecutive, ValidDl, BlockCfs, Elapsed, R.Inv;
    OpeningStep(r, s, e.now, e.frame, e.env);
    Broken(r, s, v);
    SameRest(r, s, v);
    hide Agrees, Opened;
    var s', x := R.Step(r, s, e), First(r, e.frame);
    assert s' == R.RxFirst(r, s, e.now, e.frame, e.env);
    if x.None? {
      AddsOutcome(r, s, e, [], if v.stage == Collecting then 1 else 0);
    } else {
      OpenedAdds(s, v, s', e.now, |e.frame|, x.value.len, x.value.data, e.env);
      OpenedAgrees(r, s, v, s', e.now, |e.frame|, x.value.len, x.value.data, e.env);
      AddsOutcome(r, s, e, [], Displaced(v) + (if e.env.start.Grant? && !LetIn(e.env, |x.value.data|) then 1 else 0));
    }
  }

  lemma CollectingIs(r: RxConnection, s: R.State, v: View)
    requires R.Inv(r, s) && Agrees(r, s, v) && v.stage == Collecting
    ensures r.Valid() && ValidDl(s.rxDl) && s.sub == R.WaitConsecutive && s.rem == v.rem && s.rxDl == v.dl
    ensures s.sn == (v.taken + 1) % 16 && s.initialTicks == v.at && s.blockCfs > 0
  {
  }

  /** The reception is over, and reported. */
  ghost predicate Ends(s: R.State, s': R.State) {
    s'.sub == R.Idle && s'.locked == s.locked && s'.rem == s.rem && s'.rxDl == s.rxDl && Adds(s, s', [], 1)
  }

  lemma SegmentRefused(r: RxConnection, s: R.State, v: View, now: nat, f: R.CanFrame, env: R.RxEnv)
    requires R.Inv(r, s) && Agrees(r, s, v) && v.stage == Collecting && !Fits(r, v, now, f, env)
    ensures Ends(s, R.RxConsecutive(r, s, now, f, env))
  {
    CollectingIs(r, s, v);
    ConsecutiveExactly(r, s.rxDl, s.rem, f);
    hide ConsecutiveCheck, Consecutive, ValidDl, BlockCfs, Elapsed, R.TakeSegment, R.Inv, Agrees;
  }

  lemma SegmentTaken(r: RxConnection, s: R.State, v: View, now: nat, f: R.CanFrame, env: R.RxEnv)
    requires R.Inv(r, s) && Agrees(r, s, v) && v.stage == Collecting && Fits(r, v, now, f, env)
    ensures Consecutive(r, v.dl, v.rem, f).Some?
    ensures var data := Consecutive(r, v.dl, v.rem, f).value;
            |data| == Min(s.rem, s.rxDl - r.A() - 1) && R.RxConsecutive(r, s, now, f, env) == R.TakeSegment(s, now, data)
  {
    CollectingIs(r, s, v);
    ConsecutiveExactly(r, s.rxDl, s.rem, f);
    R.ConsecutiveTakes(r, s.rxDl, s.rem, f);
    hide ConsecutiveCheck, Consecutive, ValidDl, BlockCfs, Elapsed, R.TakeSegment, R.Inv, Agrees;
  }

  lemma Room(r: RxConnection, s: R.State)
    requires R.Inv(r, s) && s.sub == R.WaitConsecutive
    ensures s.blockCfs > 0 && s.rem > 0 && s.rxDl - r.A() - 1 > 0
  {
  }

  lemma TakenAgrees(r: RxConnection, s: R.State, v: View, now: nat, data: bytes)
    requires R.Inv(r, s) && Agrees(r, s, v) && v.stage == Collecting && |data| == Min(s.rem, s.rxDl - r.A() - 1)
    ensures var s' := R.TakeSegment(s, now, data);
            Agrees(r, s', Taken(v, now, data)) && Adds(s, s', if |data| == v.rem then [v.copied + data] else [], 0)
  {
    Room(r, s);
    BlockCfsStep(s.rem, s.rxDl - r.A() - 1);
    hide ValidDl, BlockCfs;
    NextNumber(v.taken);
  }

  lemma NextNumber(k: nat)
    ensures ((k + 1) % 16 + 1) % 16 == (k + 2) % 16
  {
  }

  lemma SegmentDue(r: RxConnection, s: R.State, v: View, e: R.Event)
    requires R.Inv(r, s) && Agrees(r, s, v) && e.EFrame? && At(e.frame, r.A()) / 16 == 2 && !r.functional && v.stage == Collecting
    ensures Timely(r, s, v, e)
  {
    R.ValidConnection(r, s);
    hide R.RxSingle, R.RxFirst, R.RxConsecutive, R.TakeSegment, Single, First, Consecutive, ValidDl, BlockCfs, Elapsed, R.Inv, Fits, Taken;
    var s' := R.Step(r, s, e);
    assert s' == R.RxConsecutive(r, s, e.now, e.frame, e.env);
    if Fits(r, v, e.now, e.frame, e.env) {
      SegmentTaken(r, s, v, e.now, e.frame, e.env);
      var data := Consecutive(r, v.dl, v.rem, e.frame).value;
      TakenAgrees(r, s, v, e.now, data);
      AddsOutcome(r, s, e, if |data| == v.rem then [v.copied + data] else [], 0);
    } else {
      SegmentRefused(r, s, v, e.now, e.frame, e.env);
      AddsOutcome(r, s, e, [], 1);
      FreeAgrees(r, s', v.(stage := Free));
    }
  }

  lemma OtherFrameDue(r: RxConnection, s: R.State, v: View, e: R.Event)
    requires R.Inv(r, s) && Agrees(r, s, v) && e.EFrame? && At(e.frame, r.A()) / 16 != 0
    requires r.functional || At(e.frame, r.A()) / 16 > 2 || (At(e.frame, r.A()) / 16 == 2 && v.stage != Collecting)
    ensures Timely(r, s, v, e)
  {
    hide First, Single, Consecutive, ValidDl, BlockCfs, Elapsed;
  }

  lemma EFrameDue(r: RxConnection, s: R.State, v: View, e: R.Event)
    requires R.Inv(r, s) && Agrees(r, s, v) && e.EFrame?
    ensures Timely(r, s, v, e)
  {
    hide R.Inv, Agrees, Timely;
    R.ValidConnection(r, s);
    var t := At(e.frame, r.A()) / 16;
    if t == 0 { SingleDue(r, s, v, e); }
    else if t == 1 && !r.functional { OpeningDue(r, s, v, e); }
    else if t == 2 && !r.functional && v.stage == Collecting { SegmentDue(r, s, v, e); }
    else { OtherFrameDue(r, s, v, e); }
  }

  // ----- Main function --------------------------------------------------------------------------------------

  /** The negotiated size and status are the ones due. */
  lemma SizeIs(r: RxConnection, s: R.State, v: View, free: nat)
    requires R.Inv(r, s) && Agrees(r, s, v) && v.stage == Deciding
    ensures var s', b := R.SetRxBlockInfo(r, s.(blockCfs := 0), free), BlockSize(r, v, free);
            && s' == s.(flow := if MayGrant(r, v, free) then R.CTS else R.WAIT, bs := b, bsOpen := s.bsOpen && !MayGrant(r, v, free),
                        blockCfs := if !MayGrant(r, v, free) then 0 else if b != 0 then b as nat else BlockCfs(s.rem, s.rxDl - r.A() - 1))
  {
    hide ValidDl, BlockCfs;
  }

  lemma OverflowDue(r: RxConnection, s: R.State, v: View, e: R.Event)
    requires R.Inv(r, s) && Agrees(r, s, v) && e.EMain? && v.stage == Refusing && !v.owed
    ensures Timely(r, s, v, e)
  {
    hide ValidDl, BlockCfs, Elapsed, FlowControlFrame, First, Single, Consecutive, BlockSize, MayGrant;
  }

  /** Flow control with this status goes out, or the layer below refuses it. */
  ghost predicate Tells(r: RxConnection, s: R.State, now: nat, status: nat, b: byte, lowerOk: bool, o: R.Output)
    requires status < 16
  {
    if !lowerOk then R.Idle == o.s.sub && !o.s.locked && o.s.rem == s.rem && o.s.rxDl == s.rxDl && Adds(s, o.s, [], 1) && o.frame.None?
    else
      && o.frame == Some(FlowControlFrame(r, status, b)) && Adds(s, o.s, [], 0)
      && o.s == s.(sub := R.WaitFcConfirmation, locked := true, flow := status, bs := b, initialTicks := now,
                   fcWait := o.s.fcWait, bsOpen := o.s.bsOpen, blockCfs := o.s.blockCfs)
  }

  lemma DecidingIs(r: RxConnection, s: R.State, v: View)
    requires R.Inv(r, s) && Agrees(r, s, v) && v.stage == Deciding && !v.owed
    ensures r.Valid() && ValidDl(s.rxDl) && s.sub == R.SendFlowControl && s.flow == R.WAIT && !s.locked
    ensures s.initialTicks == v.at && s.fcWait == v.waits
  {
  }

  /** The decision, by the status that is due. */
  lemma DecisionIs(r: RxConnection, s: R.State, v: View, now: nat, env: R.MainEnv)
    requires R.Inv(r, s) && Agrees(r, s, v) && v.stage == Deciding && !v.owed && env.free.Some?
    ensures var o, status, b := R.Main(r, s, now, env), Status(r, v, now, env.free), BlockSize(r, v, env.free.value);
            if status.None? then
              && o.frame.None? && o.s.locked == s.locked && o.s.rem == s.rem && o.s.rxDl == s.rxDl
              && Adds(s, o.s, [], if WaitDue(r, v, now) then 1 else 0)
              && if WaitDue(r, v, now) then o.s.sub == R.Idle else o.s == s.(bs := b, blockCfs := 0)
            else
              && status.value < 16 && Tells(r, s, now, status.value, b, env.lowerOk, o)
              && (env.lowerOk && status.value == R.CTS ==>
                    !o.s.bsOpen && o.s.blockCfs == if b != 0 then b as nat else BlockCfs(s.rem, s.rxDl - r.A() - 1))
              && (env.lowerOk && status.value == R.WAIT ==> o.s.fcWait == s.fcWait + 1 && o.s.bsOpen == s.bsOpen)
  {
    hide ValidDl, BlockCfs, Elapsed, FlowControlFrame, BlockSize, MayGrant, R.SetRxBlockInfo, R.Inv, Agrees;
    DecidingIs(r, s, v);
    SizeIs(r, s, v, env.free.value);
  }

  lemma DecidingDue(r: RxConnection, s: R.State, v: View, e: R.Event)
    requires R.Inv(r, s) && Agrees(r, s, v) && e.EMain? && v.stage == Deciding && !v.owed && e.menv.free.Some?
    ensures Timely(r, s, v, e)
  {
    R.ValidConnection(r, s);
    hide ValidDl, BlockCfs, FlowControlFrame, MayGrant, BlockSize, WaitDue, R.Main, R.Inv, Agrees, Said, Status, Tells;
    SameRest(r, s, v);
    DecisionIs(r, s, v, e.now, e.menv);
    var o, m, status := R.Main(r, s, e.now, e.menv), MomentOf(r, s, e), Status(r, v, e.now, e.menv.free);
    assert R.Step(r, s, e) == o.s;
    if status.Some? {
      var b := BlockSize(r, v, e.menv.free.value);
      StatusKnown(r, v, e.now, e.menv.free);
      TellsOutcome(r, s, e, status.value, b);
      if e.menv.lowerOk {
        SaidAgrees(r, s, v, e.now, status.value, e.menv.free, o);
        assert Follow(r, v, m) == Said(r, v, e.now, status.value, e.menv.free);
      } else {
        RefusedBelow(r, s, e.now, status.value, b, o);
        FreeAgrees(r, o.s, v.(stage := Free));
        assert Follow(r, v, m) == v.(stage := Free);
      }
    } else {
      AddsOutcome(r, s, e, [], if WaitDue(r, v, e.now) then 1 else 0);
      if WaitDue(r, v, e.now) {
        FreeAgrees(r, o.s, v.(stage := Free));
        assert Follow(r, v, m) == v.(stage := Free);
      } else {
        GrantKept(r, v, e.menv.free.value);
        HeldAgrees(r, s, v, o.s);
        assert Follow(r, v, m) == v;
      }
    }
  }

  lemma StatusKnown(r: RxConnection, v: View, now: nat, free: Option<nat>)
    requires Sound(r, v) && v.stage == Deciding
    ensures Status(r, v, now, free).Some? ==> Status(r, v, now, free).value in {R.CTS, R.WAIT}
  {
  }

  lemma TellsOutcome(r: RxConnection, s: R.State, e: R.Event, status: nat, b: byte)
    requires R.Inv(r, s) && e.EMain? && status < 16 && Tells(r, s, e.now, status, b, e.menv.lowerOk, R.Main(r, s, e.now, e.menv))
    ensures var m := MomentOf(r, s, e);
            if !e.menv.lowerOk then Outcome(m, [], 1)
            else m.answer.None? && m.delivered == [] && m.failed == 0 && m.frame == Some(FlowControlFrame(r, status, b))
  {
    hide R.Main, R.Inv, FlowControlFrame;
  }

  lemma RefusedBelow(r: RxConnection, s: R.State, now: nat, status: nat, b: byte, o: R.Output)
    requires status < 16 && Tells(r, s, now, status, b, false, o)
    ensures o.s.sub == R.Idle && !o.s.locked && o.s.rem == s.rem && o.s.rxDl == s.rxDl
  {
  }

  /** Flow control went out as the observer saw it. */
  lemma SaidAgrees(r: RxConnection, s: R.State, v: View, now: nat, status: nat, free: Option<nat>, o: R.Output)
    requires R.Inv(r, s) && Agrees(r, s, v) && v.stage == Deciding && !v.owed && free.Some? && status in {R.CTS, R.WAIT}
    requires Tells(r, s, now, status, BlockSize(r, v, free.value), true, o)
    requires status == R.CTS ==> !o.s.bsOpen && o.s.blockCfs == (if BlockSize(r, v, free.value) != 0 then BlockSize(r, v, free.value) as nat
                                                                else BlockCfs(s.rem, s.rxDl - r.A() - 1))
    requires status == R.WAIT ==> o.s.fcWait == s.fcWait + 1 && o.s.bsOpen == s.bsOpen
    ensures Agrees(r, o.s, Said(r, v, now, status, free))
  {
    GrantKept(r, v, free.value);
    hide ValidDl, BlockCfs, FlowControlFrame, BlockSize, R.Inv;
  }

  /** Once granted, the block size stays. */
  lemma GrantKept(r: RxConnection, v: View, free: nat)
    requires Sound(r, v) && v.stage != Free
    ensures v.grant.Some? ==> BlockSize(r, v, free) == v.grant.value
  {
  }

  lemma HeldAgrees(r: RxConnection, s: R.State, v: View, s': R.State)
    requires r.Valid() && Agrees(r, s, v) && v.stage == Deciding && s' == s.(bs := s'.bs, blockCfs := 0) && (v.grant.Some? ==> s'.bs == v.grant.value)
    ensures Agrees(r, s', v)
  {
    hide ValidDl, BlockCfs;
  }

  lemma QueryFailsDue(r: RxConnection, s: R.State, v: View, e: R.Event)
    requires R.Inv(r, s) && Agrees(r, s, v) && e.EMain? && v.stage == Deciding && !v.owed && e.menv.free.None?
    ensures Timely(r, s, v, e)
  {
    R.ValidConnection(r, s);
    hide R.Main, R.Inv, Agrees;
    var failed := if WaitDue(r, v, e.now) && v.waits >= r.fcWaitMax then 2 else 1;
    QueryFails(r, s, v, e.now, e.menv);
    AddsOutcome(r, s, e, [], failed);
    SameRest(r, s, v);
    FreeAgrees(r, R.Step(r, s, e), v.(stage := Free));
    var m := MomentOf(r, s, e);
    assert Follow(r, v, m) == v.(stage := Free);
    assert Due(r, v, m);
  }

  lemma QueryFails(r: RxConnection, s: R.State, v: View, now: nat, env: R.MainEnv)
    requires R.Inv(r, s) && Agrees(r, s, v) && v.stage == Deciding && !v.owed && env.free.None?
    ensures var o := R.Main(r, s, now, env);
            && o.frame.None? && Adds(s, o.s, [], if WaitDue(r, v, now) && v.waits >= r.fcWaitMax then 2 else 1)
            && o.s.sub == R.Idle && o.s.locked == s.locked && o.s.rem == s.rem && o.s.rxDl == s.rxDl
  {
    DecidingIs(r, s, v);
    hide ValidDl, BlockCfs, Elapsed, FlowControlFrame, R.Inv, Agrees;
  }

  lemma SameRest(r: RxConnection, s: R.State, v: View)
    requires r.Valid() && Agrees(r, s, v)
    ensures Sound(r, v) && s.locked == v.owed && s.rem == v.rem && s.rxDl == v.dl && (s.sub == R.Idle <==> v.stage == Free)
  {
  }

  lemma WaitingDue(r: RxConnection, s: R.State, v: View, e: R.Event)
    requires R.Inv(r, s) && Agrees(r, s, v) && e.EMain? && (v.stage in {Deciding, Refusing} ==> v.owed)
    ensures Timely(r, s, v, e)
  {
    hide ValidDl, BlockCfs, Elapsed, FlowControlFrame, MayGrant, BlockSize, R.MainSendFlowControl;
    if v.stage in {Deciding, Refusing} { Locked(r, s, e.now, e.menv); }
  }

  lemma Locked(r: RxConnection, s: R.State, now: nat, env: R.MainEnv)
    requires r.Valid() && s.flow < 16 && ValidDl(s.rxDl) && s.locked
    ensures R.MainSendFlowControl(r, s, now, env) == R.Output(s, None)
  {
  }

  lemma ConfirmDue(r: RxConnection, s: R.State, v: View, e: R.Event)
    requires R.Inv(r, s) && Agrees(r, s, v) && e.EConfirm?
    ensures Timely(r, s, v, e)
  {
    hide ValidDl, BlockCfs;
  }

  lemma CancelDue(r: RxConnection, s: R.State, v: View)
    requires R.Inv(r, s) && Agrees(r, s, v)
    ensures Timely(r, s, v, R.ECancel)
  {
    hide BlockCfs;
  }

  lemma StepDue(r: RxConnection, s: R.State, v: View, e: R.Event)
    requires R.Inv(r, s) && Agrees(r, s, v)
    ensures Timely(r, s, v, e)
  {
    hide R.Inv, Agrees, Timely;
    match e
    case EFrame(_, _, _) => EFrameDue(r, s, v, e);
    case EMain(_, env) =>
      if v.stage == Deciding && !v.owed {
        if env.free.Some? { DecidingDue(r, s, v, e); } else { QueryFailsDue(r, s, v, e); }
      } else if v.stage == Refusing && !v.owed {
        OverflowDue(r, s, v, e);
      } else {
        WaitingDue(r, s, v, e);
      }
    case EConfirm(_) => ConfirmDue(r, s, v, e);
    case ECancel => CancelDue(r, s, v);
  }

  // ----- Runs -----------------------------------------------------------------------------------------------

  const NOBODY: View := View(Free, [], 0, 0, 0, 0, None, None, 0, false)

  function Observe(r: RxConnection, tl: seq<Moment>): View
    requires r.Valid()
  {
    if tl == [] then NOBODY else Follow(r, Observe(r, tl[..|tl| - 1]), tl[|tl| - 1])
  }

  lemma StartsAgreeing(r: RxConnection)
    requires r.Valid()
    ensures Agrees(r, R.Init(), NOBODY)
  {
  }

  lemma {:induction false} RunAgrees(r: RxConnection, events: seq<R.Event>)
    requires r.Valid()
    ensures Agrees(r, T.RxRun(r, events), Observe(r, Timeline(r, events)))
  {
    hide R.Inv, R.Step, MomentOf, Agrees, Follow, Due;
    if events == [] {
      StartsAgreeing(r);
    } else {
      var before, e := events[..|events| - 1], events[|events| - 1];
      RunAgrees(r, before);
      StepDue(r, T.RxRun(r, before), Observe(r, Timeline(r, before)), e);
      assert Timeline(r, events)[..|Timeline(r, events)| - 1] == Timeline(r, before);
    }
  }

  /**
   * In every run each call does exactly what is due by the calls and outcomes before it: a frame is let in if and only if
   * its bytes are well formed, in sequence, in time and taken by the upper layer; an SDU is delivered exactly when its
   * last segment is; every reception that ends otherwise is reported; flow control carries the status and block size
   * that the free buffer calls for; and N_Ar, N_Br and N_Cr count from the last move.
   */
  lemma {:induction false} AlwaysDue(r: RxConnection, events: seq<R.Event>, k: nat)
    requires r.Valid() && k < |events|
    ensures |Timeline(r, events)| == |events| && Timeline(r, events)[k].e == events[k]
    ensures Due(r, Observe(r, Timeline(r, events)[..k]), Timeline(r, events)[k])
  {
    hide R.Inv, R.Step, Agrees, Follow, Due;
    var n := |events| - 1;
    var before := events[..n];
    TimelineSize(r, before);
    if k == n {
      RunAgrees(r, before);
      StepDue(r, T.RxRun(r, before), Observe(r, Timeline(r, before)), events[n]);
      assert Timeline(r, events)[..n] == Timeline(r, before);
    } else {
      AlwaysDue(r, before, k);
      assert Timeline(r, events)[..k] == Timeline(r, before)[..k] && Timeline(r, events)[k] == Timeline(r, before)[k];
    }
  }

  lemma {:induction false} TimelineSize(r: RxConnection, events: seq<R.Event>)
    requires r.Valid()
    ensures |Timeline(r, events)| == |events|
  {
    if events != [] { TimelineSize(r, events[..|events| - 1]); }
  }
}
