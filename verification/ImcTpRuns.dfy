/** Whole runs of the inter-processor protocol: confirmations to the upper layer, and receive safety for any frames. */
module ImcTpRuns {
  import opened Bytes
  import opened ImcTp

  // ----- Tx confirmations ---------------------------------------------------------------------------------

  datatype TxEvent = ECyclic(ready: bool) | EConfirm

  /** The lower layer confirms only frames that it was given. */
  function TxStep(max: nat, s: TxInfo, e: TxEvent): (r: TxInfo)
    requires max >= 4 && TxOk(s)
    ensures TxOk(r)
  {
    match e
    case ECyclic(ready) => Cyclic(max, s, ready).0
    case EConfirm => if s.outstanding > 0 then TxConfirmation(s) else s
  }

  function TxRun(max: nat, s: TxInfo, events: seq<TxEvent>): (r: TxInfo)
    requires max >= 4 && TxOk(s)
    ensures TxOk(r)
    decreases |events|
  {
    if events == [] then s else TxRun(max, TxStep(max, s, events[0]), events[1..])
  }

  lemma {:induction false} TxRunConcat(max: nat, s: TxInfo, a: seq<TxEvent>, b: seq<TxEvent>)
    requires max >= 4 && TxOk(s)
    ensures TxRun(max, s, a + b) == TxRun(max, TxRun(max, s, a), b)
    decreases |a|
  {
    if a == [] {
      assert a + b == b;
    } else {
      assert (a + b)[1..] == a[1..] + b;
      TxRunConcat(max, TxStep(max, s, a[0]), a[1..], b);
    }
  }

  /** The channel is free: nothing to send and nothing to be confirmed. */
  predicate Free(s: TxInfo) {
    s.rem == 0 && s.pending == 0 && s.outstanding == 0
  }

  /** One confirmation was given once everything is sent and confirmed, and none before. */
  predicate Accounted(oks: nat, s: TxInfo) {
    s.oks == oks + if s.rem == 0 && s.outstanding == 0 then 1 else 0
  }

  /** SDU bytes that fit into 255 frames. */
  function Reach(max: nat): nat
    requires max >= 4
  {
    max - 3 + 254 * (max - 1)
  }

  /** While the message still fits, every frame is counted in the eight bits of pending. */
  ghost predicate Counted(max: nat, s: TxInfo)
    requires max >= 4
  {
    s.pending == s.outstanding <= s.sequence && s.rem + max - 1 <= Left(max, s.sequence)
  }

  lemma CountedStep(max: nat, s: TxInfo, oks: nat, e: TxEvent)
    requires max >= 4 && TxOk(s) && Counted(max, s) && Accounted(oks, s)
    ensures Counted(max, TxStep(max, s, e)) && Accounted(oks, TxStep(max, s, e))
  {
    hide Left;
    LeftStep(max, s.sequence);
    if s.sequence < 255 { LeftStep(max, s.sequence + 1); }
  }

  lemma {:induction false} CountedRun(max: nat, s: TxInfo, oks: nat, events: seq<TxEvent>)
    requires max >= 4 && TxOk(s) && Counted(max, s) && Accounted(oks, s)
    ensures Accounted(oks, TxRun(max, s, events))
    decreases |events|
  {
    hide Counted, Accounted, TxStep;
    if events != [] {
      CountedStep(max, s, oks, events[0]);
      CountedRun(max, TxStep(max, s, events[0]), oks, events[1..]);
    }
  }

  /** Frames still to be sent. */
  function FrameCount(max: nat, s: TxInfo): nat
    requires max >= 4
    decreases s.rem
  {
    if s.rem == 0 then 0 else 1 + FrameCount(max, Advance(max, s))
  }

  lemma {:induction false} FrameCountLarge(max: nat, s: TxInfo)
    requires max >= 4 && s.rem + max - 1 > Left(max, s.sequence) && s.rem > 0
    ensures FrameCount(max, s) >= UINT8 - s.sequence
    decreases s.rem
  {
    hide Left;
    LeftStep(max, s.sequence);
    if s.sequence < 255 {
      LeftStep(max, s.sequence + 1);
      FrameCountLarge(max, Advance(max, s));
    }
  }

  lemma WrapOnce(p: byte, m: nat)
    ensures ((p + 1) % UINT8 + m) % UINT8 == (p + 1 + m) % UINT8
  {
  }

  /** All frames go out before the first confirmation comes back. */
  lemma {:induction false} Burst(max: nat, s: TxInfo)
    requires max >= 4 && TxOk(s)
    ensures var n, r := FrameCount(max, s), TxRun(max, s, seq(FrameCount(max, s), _ => ECyclic(true)));
            r.rem == 0 && r.outstanding == s.outstanding + n && r.pending == (s.pending + n) % UINT8 && r.oks == s.oks
    decreases FrameCount(max, s)
  {
    hide Count, NextFrame;
    var n := FrameCount(max, s);
    if n > 0 {
      var events := seq(n, _ => ECyclic(true));
      assert events[1..] == seq(n - 1, _ => ECyclic(true));
      var s' := TxStep(max, s, ECyclic(true));
      assert s' == Advance(max, s) && FrameCount(max, s') == n - 1;
      Burst(max, s');
      WrapOnce(s.pending, n - 1);
    }
  }

  /** Confirmations bring pending to zero after as many as it counts, or at once when it wrapped to zero. */
  lemma {:induction false} Confirms(max: nat, s: TxInfo)
    requires max >= 4 && TxOk(s) && s.rem == 0 && s.outstanding > (if s.pending == 0 then 1 else s.pending)
    ensures var j := if s.pending == 0 then 1 else s.pending;
            var r := TxRun(max, s, seq(j, _ => EConfirm));
            r.rem == 0 && r.outstanding > 0 && r.oks == s.oks + 1
    decreases s.pending
  {
    var j := if s.pending == 0 then 1 else s.pending;
    var events := seq(j, _ => EConfirm);
    assert events[1..] == seq(j - 1, _ => EConfirm);
    if s.pending > 1 { Confirms(max, TxConfirmation(s)); }
  }

  /** A message of more than 255 frames has a run that confirms it while frames are still unconfirmed. */
  lemma EarlyConfirmation(max: nat, s: TxInfo, sdu: bytes) returns (events: seq<TxEvent>)
    requires max >= 4 && Free(s) && Reach(max) < |sdu| % UINT16
    ensures TxOk(Transmit(s, sdu)) && !Accounted(s.oks, TxRun(max, Transmit(s, sdu), events))
  {
    hide Left;
    var x := Transmit(s, sdu);
    LeftFormula(max, 1);
    LeftStep(max, 0);
    FrameCountLarge(max, x);
    Burst(max, x);
    var burst := seq(FrameCount(max, x), _ => ECyclic(true));
    var y := TxRun(max, x, burst);
    Confirms(max, y);
    var confirms := seq(if y.pending == 0 then 1 else y.pending, _ => EConfirm);
    TxRunConcat(max, x, burst, confirms);
    events := burst + confirms;
  }

  /**
   * With one lower confirmation per frame and no cancel or overlapping request, every run raises exactly one
   * confirmation, after the last frame's, if and only if what the sender takes of the message is not empty and needs at
   * most 255 frames.
   */
  lemma OneConfirmationExactly(max: nat, s: TxInfo, sdu: bytes)
    requires max >= 4 && Free(s)
    ensures TxOk(Transmit(s, sdu))
    ensures (forall events :: Accounted(s.oks, TxRun(max, Transmit(s, sdu), events))) <==> 0 < |sdu| % UINT16 <= Reach(max)
  {
    hide Left, TxRun;
    var x := Transmit(s, sdu);
    LeftFormula(max, 1);
    LeftStep(max, 0);
    if |sdu| % UINT16 == 0 {
      Untouched(max, x);
    } else if |sdu| % UINT16 <= Reach(max) {
      forall events ensures Accounted(s.oks, TxRun(max, x, events)) {
        CountedRun(max, x, s.oks, events);
      }
    } else {
      var events := EarlyConfirmation(max, s, sdu);
    }
  }

  lemma Untouched(max: nat, x: TxInfo)
    requires max >= 4 && TxOk(x)
    ensures TxRun(max, x, []) == x
  {
  }

  /** A message whose length is a multiple of 65536, such as an empty one, is accepted, but no frame and so no confirmation ever follows. */
  lemma {:induction false} EmptyIsNeverConfirmed(max: nat, s: TxInfo, sdu: bytes, events: seq<TxEvent>)
    requires max >= 4 && Free(s) && |sdu| % UINT16 == 0
    ensures TxOk(Transmit(s, sdu)) && TxRun(max, Transmit(s, sdu), events) == Transmit(s, sdu)
    decreases |events|
  {
    if events != [] {
      assert TxStep(max, Transmit(s, sdu), events[0]) == Transmit(s, sdu) == Transmit(Transmit(s, sdu), sdu);
      EmptyIsNeverConfirmed(max, Transmit(s, sdu), sdu, events[1..]);
    }
  }

  // ----- Receive safety -----------------------------------------------------------------------------------

  /** Read off the upper layer's calls alone: what is still owed since the last start, if it is undisturbed. */
  ghost function Owed(calls: seq<Call>): Option<int> {
    if calls == [] then None
    else match calls[|calls| - 1]
      case Started(total) => Some(total)
      case Copied(data) =>
        var before := Owed(calls[..|calls| - 1]);
        if before.Some? then Some(before.value - |data|) else None
      case _ => None
  }

  /** The start that a completion refers to: since then only successful copies, of exactly the announced length. */
  ghost predicate Complete(calls: seq<Call>, from: nat, missing: int)
    requires from < |calls|
  {
    && calls[from].Started?
    && (forall i :: from < i < |calls| ==> calls[i].Copied?)
    && Volume(calls[from + 1..]) + missing == calls[from].total
  }

  ghost function Volume(calls: seq<Call>): nat {
    if calls == [] then 0
    else Volume(calls[..|calls| - 1]) + if calls[|calls| - 1].Copied? then |calls[|calls| - 1].data| else 0
  }

  /** What is owed is exactly what the calls since some start leave missing. */
  lemma {:induction false} OwedMeans(calls: seq<Call>) returns (from: nat)
    requires Owed(calls).Some?
    ensures from < |calls| && Complete(calls, from, Owed(calls).value)
  {
    var n := |calls| - 1;
    if calls[n].Started? {
      from := n;
      assert calls[from + 1..] == [];
    } else {
      from := OwedMeans(calls[..n]);
      assert calls[from + 1..][..n - from - 1] == calls[..n][from + 1..];
      assert forall i :: from < i < n ==> calls[i] == calls[..n][i];
    }
  }

  ghost predicate RxInv(r: RxInfo) {
    DonesOk(r.calls) && (r.active ==> Owed(r.calls) == Some(r.rem))
  }

  /** Whenever completion was indicated, nothing was owed. */
  ghost predicate DonesOk(calls: seq<Call>) {
    forall i :: 0 <= i < |calls| && calls[i] == Done ==> Owed(calls[..i]) == Some(0)
  }

  lemma DonesGrow(calls: seq<Call>, c: Call)
    requires DonesOk(calls) && (c == Done ==> Owed(calls) == Some(0))
    ensures DonesOk(calls + [c])
  {
    var all := calls + [c];
    forall i | 0 <= i < |all| && all[i] == Done ensures Owed(all[..i]) == Some(0) {
      assert all[..i] == calls[..i];
      assert i == |calls| ==> calls[..i] == calls;
    }
  }

  lemma OwedStep(calls: seq<Call>, c: Call)
    ensures Owed(calls + [c]) == match c
                                 case Started(total) => Some(total)
                                 case Copied(data) => (if Owed(calls).Some? then Some(Owed(calls).value - |data|) else None)
                                 case _ => None
  {
    assert (calls + [c])[..|calls|] == calls;
  }

  lemma LogKeeps(calls: seq<Call>, c: Call)
    ensures DonesOk(calls) && (c == Done ==> Owed(calls) == Some(0)) ==> DonesOk(calls + [c])
    ensures Owed(calls + [c]) == match c
                                 case Started(total) => Some(total)
                                 case Copied(data) => (if Owed(calls).Some? then Some(Owed(calls).value - |data|) else None)
                                 case _ => None
  {
    OwedStep(calls, c);
    if DonesOk(calls) && (c == Done ==> Owed(calls) == Some(0)) { DonesGrow(calls, c); }
  }

  lemma FirstKeeps(r: RxInfo, msg: bytes, env: RxEnv)
    requires RxInv(r) && |msg| >= 3
    ensures RxInv(RxFirstFrame(r, msg, env))
  {
    hide Owed, DonesOk;
    var total: nat := msg[1] as nat * 256 + msg[2];
    LogKeeps(r.calls, Failed);
    LogKeeps(r.calls, Refused);
    LogKeeps(r.calls, Started(total));
    LogKeeps(r.calls + [Started(total)], CopyFailed);
    LogKeeps(r.calls + [Started(total)], Copied(msg[3..]));
  }

  lemma ConsecutiveKeeps(r: RxInfo, msg: bytes, env: RxEnv)
    requires RxInv(r) && |msg| >= 1
    ensures RxInv(RxConsecutiveFrame(r, msg, env))
  {
    hide Owed, DonesOk;
    LogKeeps(r.calls, Failed);
    LogKeeps(r.calls, CopyFailed);
    LogKeeps(r.calls + [CopyFailed], Failed);
    LogKeeps(r.calls, Copied(msg[1..]));
  }

  lemma IndicationKeeps(r: RxInfo, msg: bytes, env: RxEnv)
    requires RxInv(r)
    ensures RxInv(RxIndication(r, msg, env))
  {
    hide Owed, DonesOk, RxFirstFrame, RxConsecutiveFrame;
    LogKeeps(r.calls, Failed);
    if |msg| >= 1 && (msg[0] != 0 || |msg| >= 3) {
      if msg[0] == 0 { FirstKeeps(r, msg, env); } else { ConsecutiveKeeps(r, msg, env); }
      var r1 := if msg[0] == 0 then RxFirstFrame(r, msg, env) else RxConsecutiveFrame(r, msg, env);
      LogKeeps(r1.calls, Done);
    }
  }

  /** A frame as it arrives, with the upper layer's answers. */
  datatype RxEvent = EFrame(msg: bytes, env: RxEnv)

  ghost function RxRun(events: seq<RxEvent>): (r: RxInfo)
    ensures RxInv(r)
  {
    if events == [] then RxInfo(0, false, 0, [], [], [])
    else
      var r, e := RxRun(events[..|events| - 1]), events[|events| - 1];
      IndicationKeeps(r, e.msg, e.env);
      RxIndication(r, e.msg, e.env)
  }

  /**
   * Receive safety: whatever frames arrive and whichever upper layer calls fail, every E_OK indication is
   * preceded by a start of reception since which exactly the announced number of bytes was copied, every copy
   * succeeded and no error was reported.
   */
  lemma CompletionsAreEarned(events: seq<RxEvent>, k: nat)
    requires k < |RxRun(events).calls| && RxRun(events).calls[k] == Done
    ensures exists from :: 0 <= from < k && Complete(RxRun(events).calls[..k], from, 0)
  {
    var from := OwedMeans(RxRun(events).calls[..k]);
  }
}
