/**
 * Everything a channel between processors does, read off its calls: which frame goes out and when a transfer is
 * confirmed, and which calls the upper layer gets for any frames that come in.
 */
module ImcTpTimeline {
  import opened Bytes
  import opened ImcTp

  // ----- Sender -------------------------------------------------------------------------------------------

  datatype TxCall = CTransmit(sdu: bytes) | CCancel | CCyclic(ready: bool) | CConfirm

  function TxNext(max: nat, s: TxInfo, e: TxCall): (s': TxInfo)
    requires max >= 4 && TxOk(s)
    ensures TxOk(s')
  {
    match e
    case CTransmit(sdu) => Transmit(s, sdu)
    case CCancel => Cancel(s).0
    case CCyclic(ready) => Cyclic(max, s, ready).0
    case CConfirm => TxConfirmation(s)
  }

  /** A freshly initialised channel after any calls; confirmations may come at any time. */
  function TxAfter(max: nat, calls: seq<TxCall>): (s: TxInfo)
    requires max >= 4
    ensures TxOk(s)
  {
    if calls == [] then TxInfo(0, 0, 0, [], 0, 0, 0) else TxNext(max, TxAfter(max, calls[..|calls| - 1]), calls[|calls| - 1])
  }

  /** Where frame number n of a request starts: a frame with a length field comes first and after every 256 frames. */
  function Position(max: nat, n: nat): nat
    requires max >= 4
  {
    if n == 0 then 0 else Position(max, n - 1) + if (n - 1) % 256 == 0 then max - 3 else max - 1
  }

  /** What is to be sent, how many frames of it went out, and the unconfirmed ones as eight bits count them. */
  datatype TxView = TxView(sdu: bytes, frames: nat, pending: nat)

  function Sent(max: nat, v: TxView): nat
    requires max >= 4
  {
    Min(|v.sdu|, Position(max, v.frames))
  }

  /** Frame number v.frames: its control bytes and its bytes of the SDU. */
  function FrameAt(max: nat, v: TxView): bytes
    requires max >= 4 && |v.sdu| < UINT16
  {
    var rest, data := |v.sdu| - Sent(max, v), v.sdu[Sent(max, v)..Sent(max, v.(frames := v.frames + 1))];
    (if v.frames % 256 == 0 then [0, rest / 256, rest % 256] else [0x20 + v.frames % 16]) + data
  }

  function TxFollow(max: nat, v: TxView, e: TxCall): TxView
    requires max >= 4
  {
    match e
    case CTransmit(sdu) => TxView(sdu[..|sdu| % UINT16], 0, v.pending)
    case CCancel => v.(sdu := v.sdu[..Sent(max, v)])
    case CCyclic(ready) => if ready && Sent(max, v) < |v.sdu| then v.(frames := v.frames + 1, pending := (v.pending + 1) % 256) else v
    case CConfirm => v.(pending := if v.pending > 0 then v.pending - 1 else 0)
  }

  function TxObserve(max: nat, calls: seq<TxCall>): TxView
    requires max >= 4
  {
    if calls == [] then TxView([], 0, 0) else TxFollow(max, TxObserve(max, calls[..|calls| - 1]), calls[|calls| - 1])
  }

  ghost predicate TxAgrees(max: nat, s: TxInfo, v: TxView)
    requires max >= 4
  {
    && |v.sdu| < UINT16 && Sent(max, v) == s.cursor && s.rem == |v.sdu| - s.cursor
    && (s.rem > 0 ==> s.sequence == v.frames % 256) && s.pending == v.pending
    && v.sdu <= s.sdu
  }

  /** One more frame carries the bytes up to the next position. */
  lemma FrameSent(max: nat, s: TxInfo, v: TxView)
    requires max >= 4 && TxOk(s) && TxAgrees(max, s, v) && s.rem > 0
    ensures Sent(max, v.(frames := v.frames + 1)) == s.cursor + Count(max, s) <= |v.sdu|
    ensures NextFrame(max, s) == FrameAt(max, v)
  {
    assert Position(max, v.frames + 1) == Position(max, v.frames) + if s.sequence == 0 then max - 3 else max - 1;
    SameNibble(v.frames);
  }

  lemma SameNibble(n: nat)
    ensures n % 256 % 16 == n % 16 && (n % 256 + 1) % 256 == (n + 1) % 256
  {
  }

  lemma TxStepAgrees(max: nat, s: TxInfo, v: TxView, e: TxCall)
    requires max >= 4 && TxOk(s) && TxAgrees(max, s, v)
    ensures TxAgrees(max, TxNext(max, s, e), TxFollow(max, v, e))
  {
    if e.CCyclic? {
      if e.ready && s.rem > 0 {
        FrameSent(max, s, v);
        SameNibble(v.frames);
        hide Position, Count, NextFrame;
      }
    } else if e.CCancel? {
      CutShort(max, v);
    }
  }

  lemma CutShort(max: nat, v: TxView)
    requires max >= 4
    ensures var v' := v.(sdu := v.sdu[..Sent(max, v)]); Sent(max, v') == Sent(max, v) == |v'.sdu|
  {
  }

  lemma {:induction false} TxRunAgrees(max: nat, calls: seq<TxCall>)
    requires max >= 4
    ensures TxAgrees(max, TxAfter(max, calls), TxObserve(max, calls))
  {
    hide TxAgrees, TxNext, TxFollow;
    if calls == [] {
      NothingSent(max);
    } else {
      TxRunAgrees(max, calls[..|calls| - 1]);
      TxStepAgrees(max, TxAfter(max, calls[..|calls| - 1]), TxObserve(max, calls[..|calls| - 1]), calls[|calls| - 1]);
    }
  }

  lemma NothingSent(max: nat)
    requires max >= 4
    ensures TxAgrees(max, TxInfo(0, 0, 0, [], 0, 0, 0), TxView([], 0, 0))
  {
  }

  /**
   * After any calls: the cyclic function sends, whenever it can and something is left, exactly the next frame of the
   * request; a confirmation is passed on exactly when nothing is left and at most one frame is counted as unconfirmed;
   * and a transfer can be cancelled exactly while something is left.
   */
  lemma SendsExactly(max: nat, calls: seq<TxCall>, ready: bool)
    requires max >= 4
    ensures var s, v := TxAfter(max, calls), TxObserve(max, calls);
            var left := |v.sdu| - Sent(max, v);
            && |v.sdu| < UINT16
            && Cyclic(max, s, ready).1 == (if ready && left > 0 then Some(FrameAt(max, v)) else None)
            && TxConfirmation(s).oks == s.oks + (if left == 0 && v.pending <= 1 then 1 else 0)
            && (Cancel(s).1 == Ok <==> left > 0)
  {
    TxRunAgrees(max, calls);
    hide Position, Count, NextFrame, TxAfter, TxObserve, FrameAt;
    var s, v := TxAfter(max, calls), TxObserve(max, calls);
    if s.rem > 0 { FrameSent(max, s, v); }
  }

  /** n confirmations in a row. */
  function Confirmed(s: TxInfo, n: nat): TxInfo {
    if n == 0 then s else TxConfirmation(Confirmed(s, n - 1))
  }

  /**
   * A transfer that was cancelled is still confirmed with E_OK, by the confirmation of the last frame that went out
   * before; one that was cancelled with no frame unconfirmed is not confirmed at all.
   */
  lemma {:induction false} CancelledIsConfirmed(s: TxInfo, n: nat)
    requires s.rem > 0 && n <= s.pending
    ensures var s' := Confirmed(Cancel(s).0, n);
            s'.oks == s.oks + (if 0 < n == s.pending then 1 else 0) && s'.pending == s.pending - n && s'.rem == 0
  {
    if n > 0 { CancelledIsConfirmed(s, n - 1); }
  }

  // ----- Receiver -----------------------------------------------------------------------------------------

  datatype RxCall = RxCall(msg: bytes, env: RxEnv)

  function RxAfter(frames: seq<RxCall>): RxInfo {
    if frames == [] then RxInfo(0, false, 0, [], [], [])
    else RxIndication(RxAfter(frames[..|frames| - 1]), frames[|frames| - 1].msg, frames[|frames| - 1].env)
  }

  /** A transfer is open or not; the bytes missing and the number of the next frame are kept even when it is not. */
  datatype RxView = RxView(open: bool, missing: nat, next: nat, copied: bytes)

  /** A frame opens a transfer, goes on with one, or is no frame at all. */
  datatype Kind = Opening(total: nat, data: bytes) | Going(number: nat, data: bytes) | Bad

  function KindOf(msg: bytes): Kind {
    if |msg| == 0 then Bad
    else if msg[0] != 0 then Going(msg[0] % 16, msg[1..])
    else if |msg| < 3 || |msg| - 3 > msg[1] as nat * 256 + msg[2] as nat then Bad
    else Opening(msg[1] as nat * 256 + msg[2] as nat, msg[3..])
  }

  /** The next frame of the transfer. */
  predicate InSequence(v: RxView, k: Kind) {
    k.Going? && k.number == v.next % 16 && |k.data| <= v.missing
  }

  /** The calls that the upper layer is to get. */
  function CallsDue(v: RxView, k: Kind, env: RxEnv): seq<Call> {
    var failed := if v.open then [Failed] else [];
    if k.Opening? then
      if !env.startOk then [Refused]
      else if !env.copyOk then [Started(k.total), CopyFailed]
      else [Started(k.total), Copied(k.data)] + if |k.data| == k.total then [Done] else []
    else if !InSequence(v, k) then failed
    else if !env.copyOk then [CopyFailed] + failed
    else [Copied(k.data)] + if v.open && |k.data| == v.missing then [Done] else []
  }

  function RxFollow(v: RxView, k: Kind, env: RxEnv): RxView {
    if k.Opening? then
      if !env.startOk then v.(open := false)
      else if !env.copyOk || |k.data| > k.total then v.(open := false, copied := [])
      else if |k.data| == k.total then RxView(false, 0, 0, k.data)
      else RxView(true, k.total - |k.data|, 1, k.data)
    else if !InSequence(v, k) || !env.copyOk then v.(open := false)
    else if v.open && |k.data| == v.missing then RxView(false, 0, 0, v.copied + k.data)
    else v.(missing := v.missing - |k.data|, next := v.next + 1, copied := v.copied + k.data)
  }

  function RxObserve(frames: seq<RxCall>): RxView {
    if frames == [] then RxView(false, 0, 0, [])
    else RxFollow(RxObserve(frames[..|frames| - 1]), KindOf(frames[|frames| - 1].msg), frames[|frames| - 1].env)
  }

  ghost predicate RxAgrees(r: RxInfo, v: RxView) {
    r.active == v.open && r.rem == v.missing && r.sequence == v.next % 256 && r.copied == v.copied && (v.open ==> v.missing > 0)
  }

  /** The observer keeps up, and the upper layer gets what is due. */
  ghost predicate Reacts(r: RxInfo, v: RxView, k: Kind, env: RxEnv, r': RxInfo) {
    var due := CallsDue(v, k, env);
    && RxAgrees(r', RxFollow(v, k, env)) && r'.calls == r.calls + due
    && r'.delivered == r.delivered + if due != [] && due[|due| - 1] == Done then [RxFollow(v, k, env).copied] else []
  }

  lemma OpeningStep(r: RxInfo, v: RxView, msg: bytes, env: RxEnv)
    requires RxAgrees(r, v) && |msg| > 0 && msg[0] == 0
    ensures Reacts(r, v, KindOf(msg), env, RxIndication(r, msg, env))
  {
  }

  lemma GoingStep(r: RxInfo, v: RxView, msg: bytes, env: RxEnv)
    requires RxAgrees(r, v) && |msg| > 0 && msg[0] != 0
    ensures Reacts(r, v, KindOf(msg), env, RxIndication(r, msg, env))
  {
    SameNibble(v.next);
  }

  lemma RxStepAgrees(r: RxInfo, v: RxView, msg: bytes, env: RxEnv)
    requires RxAgrees(r, v)
    ensures Reacts(r, v, KindOf(msg), env, RxIndication(r, msg, env))
  {
    if |msg| > 0 {
      hide RxAgrees, Reacts, RxIndication, KindOf;
      if msg[0] == 0 { OpeningStep(r, v, msg, env); } else { GoingStep(r, v, msg, env); }
    }
  }

  lemma {:induction false} RxRunAgrees(frames: seq<RxCall>)
    ensures RxAgrees(RxAfter(frames), RxObserve(frames))
  {
    hide RxAgrees, RxIndication, RxFollow;
    if frames == [] {
      NothingReceived();
    } else {
      var before, x := frames[..|frames| - 1], frames[|frames| - 1];
      RxRunAgrees(before);
      RxStepAgrees(RxAfter(before), RxObserve(before), x.msg, x.env);
    }
  }

  lemma NothingReceived()
    ensures RxAgrees(RxInfo(0, false, 0, [], [], []), RxView(false, 0, 0, []))
  {
  }

  /**
   * After any frames: the next one leads to exactly the calls that are due. It is copied if and only if it opens a
   * transfer or has the next number and not too many bytes; a transfer ends with E_OK exactly when its last byte is
   * copied, and with E_NOT_OK when a frame breaks it; and what is delivered are the bytes copied since the start.
   */
  lemma ReceivesExactly(frames: seq<RxCall>, msg: bytes, env: RxEnv)
    ensures var r, v, k := RxAfter(frames), RxObserve(frames), KindOf(msg);
            var r', due := RxIndication(r, msg, env), CallsDue(v, k, env);
            && r'.calls == r.calls + due
            && r'.delivered == r.delivered + if due != [] && due[|due| - 1] == Done then [RxFollow(v, k, env).copied] else []
  {
    hide RxIndication, CallsDue, RxFollow, RxAgrees;
    RxRunAgrees(frames);
    RxStepAgrees(RxAfter(frames), RxObserve(frames), msg, env);
  }
}
