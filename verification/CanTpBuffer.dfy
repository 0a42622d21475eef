/**
 * When a sender sends: what the upper layer has to offer for the next frame of the segmentation, what N_Cs allows, and
 * what STmin holds back.
 */
module CanTpBuffer {
  import opened Bytes
  import opened CanTpConfig
  import opened CanTpFrames
  import opened CanTpSegments
  import opened CanTpTiming
  import T = CanTpSender

  /** The index of the frame that the channel is about to make. */
  function NextIndex(s: T.State): nat {
    if s.sub == T.Accepted then 0 else s.cfs + 1
  }

  /** The SDU bytes in the frame with this index. */
  function Carried(c: TxConnection, sdu: bytes, index: nat): nat
    requires c.Valid() && (index > 0 ==> IsFirst(TxPci(c, |sdu|)))
  {
    if index > 0 then |Segment(c, sdu, index)|
    else if IsFirst(TxPci(c, |sdu|)) then FirstPayload(c, |sdu|)
    else |sdu|
  }

  /** The channel reports E_NOT_OK once and is free; no frame goes out. */
  predicate GivesUp(s: T.State, o: T.Output) {
    o.s.sub == T.Idle && o.s.results == s.results + [NotOk] && o.frame.None? && !o.s.locked
  }

  /** The channel stays where it is, with or without a buffer, and nothing of the SDU is taken. */
  predicate Stays(s: T.State, o: T.Output, buffer: bool) {
    && o.frame.None? && o.s.sub == s.sub && o.s.bufferAvailable == buffer && o.s.results == s.results && o.s.sdu == s.sdu
    && o.s.cursor == s.cursor && o.s.initialTicks == s.initialTicks && o.s.pci == s.pci && o.s.cfs == s.cfs && !o.s.locked
  }

  /** The frame is made, or the copy fails and the channel waits without one, or the layer below refuses it. */
  ghost predicate Attempts(c: TxConnection, s: T.State, now: nat, env: T.Env, o: T.Output)
    requires c.Valid() && HasFrame(c, |s.sdu|, NextIndex(s)) && (NextIndex(s) > 0 ==> IsFirst(TxPci(c, |s.sdu|)))
  {
    if env.copyOk && !env.lowerOk then GivesUp(s, o)
    else
      && o.s.sub == T.WaitConfirmation && o.s.initialTicks == now && o.s.results == s.results && o.s.sdu == s.sdu
      && !o.s.bufferAvailable && o.s.locked == env.copyOk
      && o.s.cursor == s.cursor + (if env.copyOk then Carried(c, s.sdu, NextIndex(s)) else 0)
      && o.frame == if env.copyOk then Some(Frame(c, s.sdu, NextIndex(s))) else None
  }

  /** The upper layer offers at least this much. */
  predicate Offers(query: T.Query, n: nat) {
    query.Available? && query.n >= n
  }

  /** What a main function call does, waited being the time since the channel last moved. */
  ghost predicate Sends(c: TxConnection, s: T.State, now: nat, waited: nat, env: T.Env, o: T.Output)
    requires c.Valid() && HasFrame(c, |s.sdu|, NextIndex(s)) && (NextIndex(s) > 0 ==> IsFirst(TxPci(c, |s.sdu|)))
  {
    if !s.bufferAvailable && (waited >= c.csTicks || env.query.Refused?) then GivesUp(s, o)
    else if !s.bufferAvailable && !Offers(env.query, Carried(c, s.sdu, NextIndex(s))) then Stays(s, o, false)
    else if s.sub == T.SendConsecutive && s.pci == Cf && s.stmin.Some? && waited < s.stmin.value then Stays(s, o, true)
    else Attempts(c, s, now, env, o)
  }

  lemma NeedsOf(c: TxConnection, s: T.State)
    requires T.Inv(c, s) && s.sub in {T.Accepted, T.SendConsecutive}
    ensures HasFrame(c, |s.sdu|, NextIndex(s)) && (NextIndex(s) > 0 ==> IsFirst(TxPci(c, |s.sdu|))) && !s.locked
    ensures s.sub == T.SendConsecutive ==> Carried(c, s.sdu, NextIndex(s)) == Min(s.rem, c.Payload()) && s.stmin.Some?
    ensures s.sub == T.Accepted ==> Carried(c, s.sdu, 0) == T.NextPayload(c, s.(blockCfs := 0, rem := s.len, sn := 1))
  {
    hide ValidDl, BlockCfs, Accepts;
  }

  lemma ConsecutiveLaw(c: TxConnection, s: T.State, now: nat, env: T.Env)
    requires T.Inv(c, s) && s.sub == T.SendConsecutive
    ensures HasFrame(c, |s.sdu|, NextIndex(s)) && IsFirst(TxPci(c, |s.sdu|))
    ensures Sends(c, s, now, Elapsed(now, s.initialTicks), env, T.Main(c, s, now, env))
  {
    hide ValidDl, BlockCfs, Accepts, TxPci, Offset, ConsecutiveFrame, Frame, HasFrame, Carried, Elapsed;
    NeedsOf(c, s);
    T.SendConsecutiveEmits(c, s, now, env);
    NextFrameOf(c, s);
  }

  lemma NextFrameOf(c: TxConnection, s: T.State)
    requires T.Inv(c, s) && s.sub == T.SendConsecutive
    ensures HasFrame(c, |s.sdu|, s.cfs + 1) && s.sn < 16 && s.cursor + Min(s.rem, c.Payload()) <= |s.sdu|
    ensures Frame(c, s.sdu, s.cfs + 1) == ConsecutiveFrame(c, s.sn, s.sdu[s.cursor..s.cursor + Min(s.rem, c.Payload())])
  {
    hide ValidDl, Accepts, TxPci, BlockCfs, ConsecutiveFrame;
  }

  lemma AcceptedLaw(c: TxConnection, s: T.State, now: nat, env: T.Env)
    requires T.Inv(c, s) && s.sub == T.Accepted
    ensures HasFrame(c, |s.sdu|, 0)
    ensures Sends(c, s, now, Elapsed(now, s.initialTicks), env, T.Main(c, s, now, env))
  {
    hide ValidDl, BlockCfs, Accepts, TxPci, Offset, SingleFrame, FirstFrame, Frame, HasFrame, Carried, Elapsed;
    NeedsOf(c, s);
    T.AcceptedEmits(c, s, now, env);
  }

  /**
   * In every run a channel with a frame to make takes the buffer if and only if the upper layer offers at least the SDU
   * bytes in that frame before N_Cs is over; busy and too little change nothing; a refusal and an elapsed N_Cs each end
   * the transfer with one E_NOT_OK; and with a buffer the frame is made unless STmin within a block is not over.
   */
  lemma SendsExactly(c: TxConnection, events: seq<T.Event>, now: nat, env: T.Env)
    requires c.Valid() && Timed(events) && T.Run(c, events).sub in {T.Accepted, T.SendConsecutive}
    ensures var s, log := T.Run(c, events), History(c, events);
            && log != [] && HasFrame(c, |s.sdu|, NextIndex(s)) && (NextIndex(s) > 0 ==> IsFirst(TxPci(c, |s.sdu|)))
            && Sends(c, s, now, Elapsed(now, log[|log| - 1].at), env, T.Main(c, s, now, env))
  {
    hide T.Inv, Spaced, Sends, T.Run, T.Main, History, HasFrame;
    HistoryAgrees(c, events);
    var s := T.Run(c, events);
    if s.sub == T.Accepted {
      AcceptedLaw(c, s, now, env);
    } else {
      ConsecutiveLaw(c, s, now, env);
    }
  }
}
