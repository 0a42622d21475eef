/**
 * What a receiver tells its sender and when: the block size that the free buffer calls for, wait frames under N_Br, and
 * the end of its waits under N_Ar and N_Cr, measured against the history of the run.
 */
module CanTpNegotiation {
  import opened Bytes
  import opened CanTpConfig
  import opened CanTpFrames
  import T = CanTpTiming
  import R = CanTpReceiver

  // ----- The receiver's history ---------------------------------------------------------------------------

  /** What a channel did and when: a first frame let in, a segment taken, flow control sent, and its confirmation. */
  datatype Note = Began(at: nat) | Took(at: nat) | Said(at: nat) | Confirmed(at: nat)

  ghost function NoteOf(r: RxConnection, s: R.State, e: R.Event): seq<Note>
    requires R.Inv(r, s)
  {
    var s' := R.Step(r, s, e);
    match e
    case EFrame(now, f, _) =>
      if FrameType(r.A(), f) == FIRST && !r.functional && FirstCheck(r, f).ok && s'.sub != R.Idle then [Began(now)]
      else if FrameType(r.A(), f) == CONSECUTIVE && s'.cfs == s.cfs + 1 then [Took(now)]
      else []
    case EMain(now, _) => if s.sub == R.SendFlowControl && s'.sub == R.WaitFcConfirmation then [Said(now)] else []
    case EConfirm(now) => if R.Awaiting(s) then [Confirmed(now)] else []
    case ECancel => []
  }

  ghost function History(r: RxConnection, events: seq<R.Event>): seq<Note>
    requires r.Valid()
  {
    if events == [] then []
    else History(r, events[..|events| - 1]) + NoteOf(r, T.RxRun(r, events[..|events| - 1]), events[|events| - 1])
  }

  /** The timer of a busy channel runs since the last note. */
  ghost predicate Agrees(s: R.State, log: seq<Note>) {
    s.sub != R.Idle ==> log != [] && log[|log| - 1].at == s.initialTicks
  }

  lemma FrameAgrees(r: RxConnection, s: R.State, log: seq<Note>, now: nat, f: R.CanFrame, env: R.RxEnv)
    requires R.Inv(r, s) && Agrees(s, log)
    ensures var e := R.EFrame(now, f, env); Agrees(R.Step(r, s, e), log + NoteOf(r, s, e))
  {
    hide SingleCheck, FirstCheck, FrameType, R.RxSingle, R.RxFirst, R.RxConsecutive, R.Inv;
    R.ValidConnection(r, s);
    SingleTicks(r, s, now, f, env);
    FirstTicks(r, s, now, f, env);
    ConsecutiveTicks(r, s, now, f, env);
  }

  lemma SingleTicks(r: RxConnection, s: R.State, now: nat, f: R.CanFrame, env: R.RxEnv)
    requires r.Valid()
    ensures var s' := R.RxSingle(r, s, now, f, env); s'.sub == R.Idle || s' == s
  {
    hide SingleCheck;
  }

  lemma FirstTicks(r: RxConnection, s: R.State, now: nat, f: R.CanFrame, env: R.RxEnv)
    requires r.Valid()
    ensures var s' := R.RxFirst(r, s, now, f, env); s'.sub == R.Idle || if FirstCheck(r, f).ok then s'.initialTicks == now else s' == s
  {
    hide FirstCheck, ValidDl;
    R.FirstLeavesRemainder(r, f);
  }

  lemma ConsecutiveTicks(r: RxConnection, s: R.State, now: nat, f: R.CanFrame, env: R.RxEnv)
    requires R.Inv(r, s)
    ensures var s' := R.RxConsecutive(r, s, now, f, env);
            s'.sub == R.Idle || s' == s || (s'.cfs == s.cfs + 1 && s'.initialTicks == now)
  {
    hide ConsecutiveCheck, ValidDl, BlockCfs;
    if s.sub == R.WaitConsecutive { R.ConsecutiveTakes(r, s.rxDl, s.rem, f); }
  }

  lemma MainAgrees(r: RxConnection, s: R.State, log: seq<Note>, now: nat, env: R.MainEnv)
    requires R.Inv(r, s) && Agrees(s, log)
    ensures var e := R.EMain(now, env); Agrees(R.Step(r, s, e), log + NoteOf(r, s, e))
  {
    hide ValidDl, BlockCfs, FlowControlFrame;
  }

  lemma StepAgrees(r: RxConnection, s: R.State, log: seq<Note>, e: R.Event)
    requires R.Inv(r, s) && Agrees(s, log)
    ensures Agrees(R.Step(r, s, e), log + NoteOf(r, s, e))
  {
    hide R.RxIndication, R.Main, ValidDl, BlockCfs;
    match e
    case EFrame(now, f, env) => FrameAgrees(r, s, log, now, f, env);
    case EMain(now, env) => MainAgrees(r, s, log, now, env);
    case _ =>
  }

  lemma {:induction false} HistoryAgrees(r: RxConnection, events: seq<R.Event>)
    requires r.Valid()
    ensures Agrees(T.RxRun(r, events), History(r, events))
  {
    hide R.Inv, R.Step, NoteOf, Agrees;
    if events == [] {
      assert Agrees(R.Init(), []) by { NothingYet(); }
    } else {
      HistoryAgrees(r, events[..|events| - 1]);
      StepAgrees(r, T.RxRun(r, events[..|events| - 1]), History(r, events[..|events| - 1]), events[|events| - 1]);
    }
  }

  lemma NothingYet()
    ensures Agrees(R.Init(), [])
  {
  }

  // ----- Timeouts -----------------------------------------------------------------------------------------

  /** The reception ends with one E_NOT_OK and nothing is said. */
  predicate GivesUp(s: R.State, o: R.Output) {
    o.s.sub == R.Idle && o.s.failures == s.failures + 1 && o.frame.None? && o.s.delivered == s.delivered
  }

  /**
   * In every run a receiver that waits for the confirmation of its flow control frame, or for consecutive frames, goes on
   * waiting through a main function call if and only if N_Ar since that frame, or N_Cr since the confirmation or the last
   * segment, has not run out; otherwise it reports E_NOT_OK once and is free.
   */
  lemma WaitsExactly(r: RxConnection, events: seq<R.Event>, now: nat, env: R.MainEnv)
    requires r.Valid() && T.RxRun(r, events).sub in {R.WaitFcConfirmation, R.WaitConsecutive}
    ensures var s, log := T.RxRun(r, events), History(r, events);
            && log != []
            && var o := R.Main(r, s, now, env);
               if Elapsed(now, log[|log| - 1].at) <= (if s.sub == R.WaitFcConfirmation then r.arTicks else r.crTicks)
               then o == R.Output(s, None)
               else GivesUp(s, o) && (s.sub == R.WaitFcConfirmation ==> !o.s.locked)
  {
    hide R.Inv, T.RxRun, History;
    HistoryAgrees(r, events);
  }

  // ----- Negotiation ----------------------------------------------------------------------------------------

  /** How many whole frames fit. */
  predicate Fits(free: nat, payload: nat, q: nat) {
    q * payload <= free < (q + 1) * payload
  }

  /**
   * b is the block size for this free buffer: the one granted before; with room for the whole rest the maximum; else the
   * number of frames that fit, in eight bits, at most the maximum.
   */
  ghost predicate IsBlockSize(r: RxConnection, s: R.State, free: nat, payload: nat, b: nat) {
    if !s.bsOpen then b == s.bs as nat
    else if free >= s.rem then b == r.bsMax as nat
    else forall q: nat :: Fits(free, payload, q) ==> b == if r.bsMax != 0 then Min(q % 256, r.bsMax as nat) else q % 256
  }

  /** The buffer holds the rest, or a whole block of this size. */
  predicate MayGrant(s: R.State, free: nat, payload: nat, b: nat) {
    free >= s.rem || (b != 0 && b * payload <= free)
  }

  /** Flow control with this status and block size goes out, or the layer below refuses it. */
  predicate Says(r: RxConnection, s: R.State, status: nat, b: byte, now: nat, lowerOk: bool, o: R.Output)
    requires status < 16
  {
    if !lowerOk then GivesUp(s, o) && !o.s.locked
    else
      && o.frame == Some(FlowControlFrame(r, status, b)) && o.s.sub == R.WaitFcConfirmation && o.s.locked
      && o.s.flow == status && o.s.bs == b && o.s.initialTicks == now && o.s.failures == s.failures
  }

  /** Nothing goes out yet. */
  predicate Holds(s: R.State, o: R.Output) {
    o.frame.None? && o.s.sub == s.sub && o.s.failures == s.failures && o.s.fcWait == s.fcWait && o.s.initialTicks == s.initialTicks
  }

  /**
   * What a main function call tells the sender, waited being the time since the last note: clear-to-send if the block may
   * be granted; else wait, at once the first time and then when N_Br is over, up to the maximum; then it gives up.
   */
  ghost predicate Negotiates(r: RxConnection, s: R.State, now: nat, waited: nat, free: nat, lowerOk: bool, b: byte, o: R.Output)
    requires r.Valid() && ValidDl(s.rxDl)
  {
    var payload := s.rxDl - r.A() - 1;
    && IsBlockSize(r, s, free, payload, b as nat)
    && if MayGrant(s, free, payload, b as nat) then
         && Says(r, s, R.CTS, b, now, lowerOk, o)
         && (lowerOk ==> !o.s.bsOpen && o.s.blockCfs == if b != 0 then b as nat else BlockCfs(s.rem, payload))
       else if s.fcWait > 0 && waited < r.brTicks then Holds(s, o)
       else if s.fcWait < r.fcWaitMax then
         Says(r, s, R.WAIT, b, now, lowerOk, o) && (lowerOk ==> o.s.fcWait == s.fcWait + 1 && o.s.bsOpen == s.bsOpen)
       else GivesUp(s, o)
  }

  /** The quotient counts the whole frames. */
  lemma FitsExactly(free: nat, payload: nat, q: nat)
    requires payload > 0
    ensures Fits(free, payload, q) <==> q == free / payload
  {
    assert free == free / payload * payload + free % payload;
    if q < free / payload {
      assert (q + 1) * payload <= free / payload * payload;
    } else if q > free / payload {
      assert (free / payload + 1) * payload <= q * payload;
    }
  }

  /** The negotiated size and status. */
  lemma BlockSizeExactly(r: RxConnection, s: R.State, free: nat)
    requires r.Valid() && ValidDl(s.rxDl)
    ensures var s', payload := R.SetRxBlockInfo(r, s, free), s.rxDl - r.A() - 1;
            && IsBlockSize(r, s, free, payload, s'.bs as nat)
            && (s'.flow == R.CTS <==> MayGrant(s, free, payload, s'.bs as nat)) && s'.flow in {R.CTS, R.WAIT}
            && s' == s.(flow := s'.flow, bs := s'.bs, bsOpen := s.bsOpen && s'.flow != R.CTS,
                        blockCfs := if s'.flow != R.CTS then s.blockCfs else if s'.bs != 0 then s'.bs as nat else BlockCfs(s.rem, payload))
  {
    hide BlockCfs;
    var payload := s.rxDl - r.A() - 1;
    forall q: nat ensures Fits(free, payload, q) <==> q == free / payload { FitsExactly(free, payload, q); }
    assert Fits(free, payload, free / payload);
    hide Fits, ValidDl;
  }

  /** The decision of one call. */
  lemma DecisionExactly(r: RxConnection, s: R.State, now: nat, env: R.MainEnv) returns (b: byte)
    requires R.Inv(r, s) && s.sub == R.SendFlowControl && s.flow == R.WAIT && !s.locked && env.free.Some?
    ensures Negotiates(r, s, now, Elapsed(now, s.initialTicks), env.free.value, env.lowerOk, b, R.Main(r, s, now, env))
  {
    hide R.SetRxBlockInfo, IsBlockSize, MayGrant, FlowControlFrame, BlockCfs, Elapsed;
    var s1 := s.(blockCfs := 0);
    BlockSizeExactly(r, s1, env.free.value);
    SameQuestion(r, s, s1, env.free.value);
    b := R.SetRxBlockInfo(r, s1, env.free.value).bs;
    hide ValidDl;
  }

  lemma SameQuestion(r: RxConnection, s: R.State, s1: R.State, free: nat)
    requires s1 == s.(blockCfs := 0)
    ensures forall payload: nat, b: nat :: IsBlockSize(r, s, free, payload, b) == IsBlockSize(r, s1, free, payload, b)
    ensures forall payload: nat, b: nat :: MayGrant(s, free, payload, b) == MayGrant(s1, free, payload, b)
  {
  }

  /**
   * In every run, when a receiver with a free buffer of this size decides, it sends exactly the flow control that the
   * buffer, the rest of the SDU, the configuration and the time since its last note call for.
   */
  lemma GrantsExactly(r: RxConnection, events: seq<R.Event>, now: nat, env: R.MainEnv) returns (b: byte)
    requires r.Valid() && env.free.Some?
    requires var s := T.RxRun(r, events); s.sub == R.SendFlowControl && s.flow == R.WAIT && !s.locked
    ensures var s, log := T.RxRun(r, events), History(r, events);
            && log != [] && ValidDl(s.rxDl)
            && Negotiates(r, s, now, Elapsed(now, log[|log| - 1].at), env.free.value, env.lowerOk, b, R.Main(r, s, now, env))
  {
    hide R.Inv, T.RxRun, History, Negotiates, R.Main, ValidDl;
    HistoryAgrees(r, events);
    var s := T.RxRun(r, events);
    KnownLength(r, s);
    b := DecisionExactly(r, s, now, env);
  }

  lemma KnownLength(r: RxConnection, s: R.State)
    ensures R.Inv(r, s) && s.sub != R.Idle ==> ValidDl(s.rxDl)
  {
  }

  // ----- A failed query ---------------------------------------------------------------------------------------

  /**
   * In every run a receiver whose query for the free buffer fails reports E_NOT_OK and is free; it reports it a second
   * time if and only if the wait that it would have announced is beyond the maximum.
   */
  lemma FailedQueryExactly(r: RxConnection, events: seq<R.Event>, now: nat, lowerOk: bool)
    requires r.Valid()
    requires var s := T.RxRun(r, events); s.sub == R.SendFlowControl && s.flow == R.WAIT && !s.locked
    ensures var s, log, o := T.RxRun(r, events), History(r, events), R.Main(r, T.RxRun(r, events), now, R.MainEnv(None, lowerOk));
            && log != [] && o.s.sub == R.Idle && o.frame.None? && o.s.delivered == s.delivered
            && o.s.failures == s.failures + if (s.fcWait == 0 || Elapsed(now, log[|log| - 1].at) >= r.brTicks) && s.fcWait >= r.fcWaitMax
                                            then 2 else 1
  {
    hide R.Inv, T.RxRun, History, ValidDl, Elapsed;
    HistoryAgrees(r, events);
    KnownLength(r, T.RxRun(r, events));
    FlowKnown(r, T.RxRun(r, events));
  }

  lemma FlowKnown(r: RxConnection, s: R.State)
    ensures R.Inv(r, s) ==> r.Valid() && s.flow < 16
  {
  }
}
