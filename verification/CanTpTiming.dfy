/** Separation time, timeouts, wait frames and refusals, read off the history of runs. */
module CanTpTiming {
  import opened Bytes
  import opened CanTpConfig
  import opened CanTpFrames
  import opened CanTpSegments
  import T = CanTpSender
  import R = CanTpReceiver

  // ----- The sender's history -----------------------------------------------------------------------------

  /** What a channel did and when: a request taken, a frame attempted, a confirmation, a flow control frame obeyed. */
  datatype Note =
    | Asked(at: nat)
    | Tried(at: nat, consecutive: bool, gap: nat)
    | Confirmed(at: nat)
    | Told(at: nat)

  function Time(e: T.Event): nat {
    if e.ECancel? then 0 else e.now
  }

  /** The note that an event adds; gap is the separation time in force. */
  ghost function NoteOf(c: TxConnection, s: T.State, e: T.Event): seq<Note>
    requires T.Inv(c, s)
  {
    var s' := T.Step(c, s, e);
    match e
    case ERequest(now, data) => if s.sub == T.Idle && s'.sub != T.Idle then [Asked(now)] else []
    case ECancel => []
    case EMain(now, env) =>
      if s.sub in {T.Accepted, T.SendConsecutive} && s'.sub == T.WaitConfirmation
      then [Tried(now, s'.pci == Cf, if s.stmin.Some? then s.stmin.value else 0)] else []
    case EConfirm(now) => if s.locked && s.sub == T.WaitConfirmation then [Confirmed(now)] else []
    case EFlowControl(now, f) => if s.sub == T.WaitFlowControl && s'.sub != T.Idle then [Told(now)] else []
  }

  ghost function History(c: TxConnection, events: seq<T.Event>): seq<Note>
    requires c.Valid()
  {
    if events == [] then []
    else History(c, events[..|events| - 1]) + NoteOf(c, T.Run(c, events[..|events| - 1]), events[|events| - 1])
  }

  /** Clock readings do not go back. */
  predicate Timed(events: seq<T.Event>) {
    forall i, j :: 0 <= i < j < |events| && !events[i].ECancel? && !events[j].ECancel? ==> Time(events[i]) <= Time(events[j])
  }

  /** When the last consecutive frame of the block being sent was attempted; None at the start of a block. */
  function InBlock(log: seq<Note>): Option<nat> {
    if log == [] then None
    else match log[|log| - 1]
      case Tried(at, consecutive, _) => if consecutive then Some(at) else None
      case Confirmed(_) => InBlock(log[..|log| - 1])
      case _ => None
  }

  /** Timer and history agree, and the last frame of the block lies before the timer. */
  ghost predicate Agrees(s: T.State, log: seq<Note>) {
    && (s.sub != T.Idle ==> log != [] && log[|log| - 1].at == s.initialTicks)
    && (s.sub == T.WaitConfirmation ==> log != [] && log[|log| - 1].Tried? && log[|log| - 1].consecutive == (s.pci == Cf))
    && (s.sub in {T.WaitFlowControl, T.SendConsecutive} ==> log != [] && (log[|log| - 1].Confirmed? || log[|log| - 1].Told?))
    && (s.sub == T.SendConsecutive && s.pci == Cf ==> InBlock(log).Some? && InBlock(log).value <= s.initialTicks)
    && (s.sub == T.SendConsecutive && s.pci != Cf ==> InBlock(log).None?)
    && (s.sub == T.WaitConfirmation && s.pci == Cf ==> InBlock(log) == Some(s.initialTicks))
  }

  /** Frames of one block are at least the separation time apart. */
  ghost predicate Spaced(log: seq<Note>) {
    forall j :: 0 <= j < |log| && log[j].Tried? && log[j].consecutive && InBlock(log[..j]).Some? ==>
      log[j].at >= InBlock(log[..j]).value + log[j].gap
  }

  lemma InBlockStep(log: seq<Note>, n: Note)
    ensures InBlock(log + [n]) == match n
                                  case Tried(at, consecutive, _) => (if consecutive then Some(at) else None)
                                  case Confirmed(_) => InBlock(log)
                                  case _ => None
  {
    assert (log + [n])[..|log|] == log;
  }

  lemma SpacedStep(log: seq<Note>, n: Note)
    requires Spaced(log)
    requires n.Tried? && n.consecutive && InBlock(log).Some? ==> n.at >= InBlock(log).value + n.gap
    ensures Spaced(log + [n])
  {
    var all := log + [n];
    forall j | 0 <= j < |all| && all[j].Tried? && all[j].consecutive && InBlock(all[..j]).Some?
      ensures all[j].at >= InBlock(all[..j]).value + all[j].gap
    {
      assert all[..j] == if j < |log| then log[..j] else log;
    }
  }

  /** A frame inside a block leaves only once the separation time has passed on the channel's timer. */
  lemma SeparationKept(c: TxConnection, s: T.State, now: nat, env: T.Env)
    requires T.Inv(c, s) && s.sub == T.SendConsecutive && s.pci == Cf && T.Main(c, s, now, env).s.sub == T.WaitConfirmation
    ensures s.stmin.Some? && Elapsed(now, s.initialTicks) >= s.stmin.value
  {
    hide ValidDl, Accepts, TxPci, BlockCfs, Offset, ConsecutiveFrame;
  }

  /** A wrapped difference is never more than the true one. */
  lemma ElapsedAtMost(now: nat, start: nat)
    requires start <= now
    ensures Elapsed(now, start) <= now - start
  {
  }

  /** What one event does to the parts of the channel that the history is about. */
  lemma EventView(c: TxConnection, s: T.State, e: T.Event)
    requires T.Inv(c, s)
    ensures var s', notes := T.Step(c, s, e), NoteOf(c, s, e);
            || s'.sub == T.Idle
            || (notes == [] && s'.sub == s.sub && s'.pci == s.pci && s'.initialTicks == s.initialTicks)
            || (&& |notes| == 1 && notes[0].at == Time(e) == s'.initialTicks
                && match notes[0]
                   case Asked(_) => s'.sub == T.Accepted
                   case Tried(_, consecutive, gap) =>
                     && s'.sub == T.WaitConfirmation && consecutive == (s'.pci == Cf)
                     && (consecutive ==> s.sub == T.SendConsecutive && s.stmin == Some(gap))
                   case Confirmed(_) => s.sub == T.WaitConfirmation && s'.sub in {T.SendConsecutive, T.WaitFlowControl}
                                        && (s'.sub == T.SendConsecutive ==> s'.pci == s.pci == Cf)
                   case Told(_) => s'.sub in {T.SendConsecutive, T.WaitFlowControl} && s'.pci == Fc)
  {
    hide ValidDl, Accepts, TxPci, Offset, T.CreateFrame, FlowControlCheck, T.STminTicks;
    match e
    case EMain(now, env) => MainView(c, s, now, env);
    case EConfirm(now) => if s.locked { ConfirmView(c, s, now); }
    case _ =>
  }

  lemma MainView(c: TxConnection, s: T.State, now: nat, env: T.Env)
    requires T.Inv(c, s)
    ensures var s' := T.Main(c, s, now, env).s;
            || s'.sub == T.Idle
            || (s'.sub == s.sub && s'.pci == s.pci && s'.initialTicks == s.initialTicks)
            || (&& s.sub in {T.Accepted, T.SendConsecutive} && s'.sub == T.WaitConfirmation && s'.initialTicks == now
                && (s'.pci == Cf <==> s.sub == T.SendConsecutive) && (s.sub == T.SendConsecutive ==> s.stmin.Some?))
  {
    hide ValidDl, Accepts, TxPci, BlockCfs, Offset, T.CreateFrame;
    if s.sub == T.Accepted { NotConsecutive(c, s.len); }
  }

  lemma NotConsecutive(c: TxConnection, len: nat)
    requires c.Valid()
    ensures TxPci(c, len) != Cf
  {
  }

  lemma ConfirmView(c: TxConnection, s: T.State, now: nat)
    requires T.Inv(c, s) && s.locked
    ensures var s' := T.TxConfirmation(c, s, now);
            || s'.sub == T.Idle
            || (&& s'.initialTicks == now && s'.sub in {T.SendConsecutive, T.WaitFlowControl}
                && (s'.sub == T.SendConsecutive ==> s'.pci == s.pci == Cf))
  {
    hide ValidDl, Accepts, TxPci, BlockCfs, Offset;
  }

  lemma AgreesStep(c: TxConnection, s: T.State, log: seq<Note>, e: T.Event)
    requires T.Inv(c, s) && Agrees(s, log) && Spaced(log) && (!e.ECancel? && s.sub != T.Idle ==> s.initialTicks <= Time(e))
    ensures Agrees(T.Step(c, s, e), log + NoteOf(c, s, e)) && Spaced(log + NoteOf(c, s, e))
  {
    var s', notes := T.Step(c, s, e), NoteOf(c, s, e);
    EventView(c, s, e);
    IdleNotes(c, s, e);
    if notes == [] {
      assert log + notes == log;
    } else {
      assert log + notes == log + [notes[0]];
      InBlockStep(log, notes[0]);
      if notes[0].Tried? && notes[0].consecutive && s.pci == Cf {
        SeparationKept(c, s, e.now, e.env);
        ElapsedAtMost(e.now, s.initialTicks);
      }
      SpacedStep(log, notes[0]);
    }
    hide T.Inv, T.Step, NoteOf, InBlock, Spaced;
  }

  /** A note of an attempt is made only while the channel goes on. */
  lemma IdleNotes(c: TxConnection, s: T.State, e: T.Event)
    requires T.Inv(c, s)
    ensures var notes := NoteOf(c, s, e);
            && |notes| <= 1 && (notes != [] ==> notes[0].at == Time(e) && !e.ECancel?)
            && (notes != [] && notes[0].Tried? ==> e.EMain? && T.Step(c, s, e).sub == T.WaitConfirmation)
  {
    hide T.Inv, T.Main, T.FlowControl, T.TxConfirmation, T.Transmit;
  }

  /** The timer of a busy channel was set by an event of the run. */
  lemma {:induction false} TimerFromRun(c: TxConnection, events: seq<T.Event>)
    requires c.Valid() && T.Run(c, events).sub != T.Idle
    ensures exists i :: 0 <= i < |events| && !events[i].ECancel? && Time(events[i]) == T.Run(c, events).initialTicks
  {
    hide T.Inv, T.Step, NoteOf;
    var n := |events| - 1;
    assert events != [];
    var before, e := events[..n], events[n];
    EventView(c, T.Run(c, before), e);
    IdleNotes(c, T.Run(c, before), e);
    if NoteOf(c, T.Run(c, before), e) == [] {
      TimerFromRun(c, before);
      var i :| 0 <= i < n && !before[i].ECancel? && Time(before[i]) == T.Run(c, before).initialTicks;
      assert events[i] == before[i];
    } else {
      assert Time(events[n]) == T.Run(c, events).initialTicks;
    }
  }

  lemma {:induction false} HistoryAgrees(c: TxConnection, events: seq<T.Event>)
    requires c.Valid() && Timed(events)
    ensures Agrees(T.Run(c, events), History(c, events)) && Spaced(History(c, events))
  {
    hide T.Inv, T.Step, NoteOf, Agrees, Spaced;
    if events == [] {
      NothingYet();
    } else {
      var n := |events| - 1;
      var before, e, s := events[..n], events[n], T.Run(c, events[..n]);
      HistoryAgrees(c, before);
      if s.sub != T.Idle && !e.ECancel? {
        TimerFromRun(c, before);
        var i :| 0 <= i < n && !before[i].ECancel? && Time(before[i]) == s.initialTicks;
        assert events[i] == before[i] && events[n] == e;
      }
      AgreesStep(c, s, History(c, before), e);
    }
  }

  lemma NothingYet()
    ensures Agrees(T.Init(), []) && Spaced([])
  {
  }

  /** In every run any two successive consecutive frames of one block are at least the separation time apart. */
  lemma FramesAreSpaced(c: TxConnection, events: seq<T.Event>)
    requires c.Valid() && Timed(events)
    ensures Spaced(History(c, events))
  {
    HistoryAgrees(c, events);
  }

  /**
   * In every run a sender that waits for a confirmation or for flow control goes on waiting through a main function
   * call if and only if N_As, counted from its last frame, or N_Bs, counted from the last confirmation or wait frame,
   * has not run out; otherwise it reports E_NOT_OK and is free.
   */
  lemma WaitsExactly(c: TxConnection, events: seq<T.Event>, now: nat, env: T.Env)
    requires c.Valid() && Timed(events) && T.Run(c, events).sub in {T.WaitConfirmation, T.WaitFlowControl}
    ensures var s, log := T.Run(c, events), History(c, events);
            && log != [] && (s.sub == T.WaitConfirmation <==> log[|log| - 1].Tried?)
            && var s' := T.Step(c, s, T.EMain(now, env));
               if Elapsed(now, log[|log| - 1].at) <= (if s.sub == T.WaitConfirmation then c.asTicks else c.bsTicks) then s' == s
               else s'.sub == T.Idle && s'.results == s.results + [NotOk]
  {
    hide T.Inv, Spaced;
    HistoryAgrees(c, events);
  }

  /** Milliseconds are exact up to 127, reserved codes count as the longest time, and no code exceeds it while ticks fit. */
  lemma STminTable(c: TxConnection, b: byte)
    ensures b <= 0x7F ==> T.STminTicks(c, b) == b as nat * c.ticksPerMs % TICKS
    ensures 0xF1 <= b <= 0xF9 ==> T.STminTicks(c, b) == ((b - 0xF0) * 100) * c.ticksPerMs / 1000 % TICKS
    ensures 0x7F < b < 0xF1 || b > 0xF9 ==> T.STminTicks(c, b) == 127 * c.ticksPerMs % TICKS
    ensures 127 * c.ticksPerMs < TICKS ==> T.STminTicks(c, b) <= T.STminTicks(c, 0x7F)
  {
    var t := c.ticksPerMs;
    Millis(b, t);
    Millis(127, t);
    if 0xF1 <= b <= 0xF9 {
      SubMillis(b - 0xF0, t);
      Unwrapped((b as nat - 0xF0) * 100 * t / 1000, 127 * t);
    } else {
      Grows(b, t);
      Unwrapped(if b <= 0x7F then b as nat * t else 127 * t, 127 * t);
    }
  }

  lemma Millis(n: nat, t: nat)
    ensures n * 1000 * t / 1000 == n * t
  {
    assert n * 1000 * t == 1000 * (n * t);
    Thousands(n * t);
  }

  lemma SubMillis(k: nat, t: nat)
    requires k <= 9
    ensures k * 100 * t / 1000 <= 127 * t
  {
    assert k * 100 * t <= 900 * t <= 1000 * (127 * t);
    Thousands(127 * t);
  }

  lemma Grows(b: nat, t: nat)
    ensures b <= 127 ==> b * t <= 127 * t
  {
    if b <= 127 { assert 127 * t == b * t + (127 - b) * t; }
  }

  lemma Unwrapped(x: nat, y: nat)
    ensures x <= y < TICKS ==> x % TICKS <= y % TICKS
  {
  }

  lemma Thousands(n: nat)
    ensures 1000 * n / 1000 == n
  {
  }

  /** Each flow status does what it stands for: open a block, keep waiting on a fresh timer, or give up. */
  lemma FlowStatusObeyed(c: TxConnection, s: T.State, now: nat, f: bytes)
    requires T.Inv(c, s) && s.sub == T.WaitFlowControl && FlowControlCheck(c, f).ok
    requires c.strict ==> Elapsed(now, s.initialTicks) <= c.bsTicks
    ensures var s', status := T.FlowControl(c, s, now, f), FlowControlCheck(c, f).low;
            && (status == T.CTS ==> s'.sub == T.SendConsecutive && s'.blockCfs > 0 && s'.results == s.results)
            && (status == T.WAIT ==> s' == s.(flow := T.WAIT, initialTicks := now))
            && (status > T.WAIT ==> s'.sub == T.Idle && s'.results == s.results + [NotOk])
  {
    T.FlowControlKeeps(c, s, now, f);
    hide ValidDl, Accepts, TxPci, BlockCfs, Offset, FlowControlCheck;
  }

  // ----- Wait frames --------------------------------------------------------------------------------------

  /** The frame tells the sender to wait. */
  ghost predicate SaysWait(r: RxConnection, o: R.Output) {
    o.frame.Some? && o.s.flow == R.WAIT && o.frame.value == FlowControlFrame(r, R.WAIT, o.s.bs)
  }

  /** The channel took the data of this frame: it opened a reception or added a segment. */
  ghost predicate TakesData(r: RxConnection, s: R.State, s': R.State, f: R.CanFrame)
    requires r.Valid()
  {
    || (FrameType(r.A(), f) == FIRST && s'.sub == R.SendFlowControl && s'.flow == R.WAIT && s' != s)
    || (FrameType(r.A(), f) == CONSECUTIVE && s'.cfs == s.cfs + 1)
  }

  /** Wait frames sent since the last frame whose data was taken. */
  ghost function WaitsSent(r: RxConnection, events: seq<R.Event>): nat
    requires r.Valid()
  {
    if events == [] then 0
    else
      var before, e := events[..|events| - 1], events[|events| - 1];
      var s := RxRun(r, before);
      match e
      case EFrame(now, f, env) => if TakesData(r, s, R.Step(r, s, e), f) then 0 else WaitsSent(r, before)
      case EMain(now, env) => WaitsSent(r, before) + if SaysWait(r, R.Main(r, s, now, env)) then 1 else 0
      case _ => WaitsSent(r, before)
  }

  ghost function RxRun(r: RxConnection, events: seq<R.Event>): (s: R.State)
    requires r.Valid()
    ensures R.Inv(r, s)
  {
    if events == [] then R.Init()
    else
      var s := RxRun(r, events[..|events| - 1]);
      R.StepKeeps(r, s, events[|events| - 1]);
      R.Step(r, s, events[|events| - 1])
  }

  /** Every wait frame is counted below the maximum; a main function call never uncounts one. */
  lemma MainCounts(r: RxConnection, s: R.State, now: nat, env: R.MainEnv)
    requires R.Inv(r, s)
    ensures var o := R.Main(r, s, now, env);
            && s.fcWait <= o.s.fcWait && (s.fcWait <= r.fcWaitMax ==> o.s.fcWait <= r.fcWaitMax)
            && (SaysWait(r, o) ==> o.s.fcWait == s.fcWait + 1)
  {
    hide FlowControlFrame, BlockCfs, ValidDl;
    if s.sub == R.SendFlowControl && !s.locked && s.flow != R.OVERFLOW && env.free.Some? {
      R.SetRxBlockInfoFrame(r, s.(blockCfs := 0), env.free.value);
    }
  }

  /** Only a frame whose data is taken resets the count. */
  lemma FrameCounts(r: RxConnection, s: R.State, now: nat, f: R.CanFrame, env: R.RxEnv)
    requires R.Inv(r, s)
    ensures var s' := R.RxIndication(r, s, now, f, env);
            s'.fcWait in {0, s.fcWait} && (s'.fcWait == s.fcWait || TakesData(r, s, s', f))
  {
    hide ValidDl, CanDl, BlockCfs, SingleCheck, FirstCheck, ConsecutiveCheck;
    if s.sub == R.WaitConsecutive { R.ConsecutiveTakes(r, s.rxDl, s.rem, f); }
  }

  lemma {:induction false} WaitsCounted(r: RxConnection, events: seq<R.Event>)
    requires r.Valid()
    ensures WaitsSent(r, events) <= RxRun(r, events).fcWait <= r.fcWaitMax
  {
    hide R.Inv, R.Main, R.RxIndication, SaysWait, TakesData;
    if events != [] {
      var before, e := events[..|events| - 1], events[|events| - 1];
      var s := RxRun(r, before);
      WaitsCounted(r, before);
      match e
      case EFrame(now, f, env) => FrameCounts(r, s, now, f, env);
      case EMain(now, env) => MainCounts(r, s, now, env);
      case _ =>
    }
  }

  /** In every run at most the configured maximum of wait frames is sent between two frames whose data is taken. */
  lemma WaitFramesBounded(r: RxConnection, events: seq<R.Event>)
    requires r.Valid()
    ensures WaitsSent(r, events) <= r.fcWaitMax
  {
    WaitsCounted(r, events);
  }

  // ----- An SDU that is too long ------------------------------------------------------------------------

  /** The receiver answers an SDU that is too long with overflow, and reports the failure once that frame is confirmed. */
  lemma TooLongIsAnswered(r: RxConnection, s: R.State, now: nat, f: R.CanFrame, copyOk: bool, env: R.MainEnv)
    requires R.Inv(r, s) && s.sub == R.Idle && !s.locked && !r.functional
    requires FrameType(r.A(), f) == FIRST && FirstCheck(r, f).ok && env.lowerOk
    ensures var s1 := R.RxIndication(r, s, now, f, R.RxEnv(R.TooLong, copyOk));
            && R.Inv(r, s1)
            && var o := R.Main(r, s1, now, env);
               && o.frame == Some(FlowControlFrame(r, R.OVERFLOW, 0))
               && R.TxConfirmation(o.s, now).sub == R.Idle && R.TxConfirmation(o.s, now).failures == s.failures + 1
  {
    R.FrameKeeps(r, s, now, f, R.RxEnv(R.TooLong, copyOk));
    R.FirstLeavesRemainder(r, f);
    hide FirstCheck, FlowControlFrame, BlockCfs, ValidDl;
  }

  /** The overflow answer makes the sender give the SDU up. */
  lemma OverflowEndsTransfer(c: TxConnection, r: RxConnection, s: T.State, now: nat, bs: byte, got: bytes)
    requires Matched(c, r) && T.Inv(c, s) && s.sub == T.WaitFlowControl && OnWire(FlowControlFrame(r, R.OVERFLOW, bs), got)
    ensures FrameType(c.A(), got) == FLOW_CONTROL
    ensures var s' := T.FlowControl(c, s, now, got); s'.sub == T.Idle && s'.results == s.results + [NotOk]
  {
    FlowControlFrameDecodes(c, r, R.OVERFLOW, bs, got);
    hide FlowControlFrame, FlowControlCheck, OnWire, FrameType, BlockCfs;
  }
}
