/**
 * CanIf between the driver and CanTp. A received frame may fake the Tx confirmation that the driver still owes,
 * which makes the order of the two driver events irrelevant.
 */
module CanIf {
  import opened Bytes
  import opened CanTpConfig
  import opened CanTpFrames
  import opened CanTpSegments
  import S = CanTpSender
  import R = CanTpReceiver

  /**
   * Who above CanIf owns a PDU: it carries the data frames of a transmit connection, the flow control frames of a
   * receive connection, what CanTp receives for a pair of connections, or it belongs to another module.
   */
  datatype User =
    | TxData(i: nat)
    | RxFlow(i: nat)
    | RxPdu(addr: nat, tx: Option<nat>, rx: Option<nat>)
    | Other

  /** One row of the PDU tables; a fake value that is no PDU id switches the fake confirmation off. */
  datatype Pdu = Pdu(canId: bv32, user: User, fake: nat)

  datatype Config = Config(pdus: seq<Pdu>, fdMask: bv32, tx: seq<TxConnection>, rx: seq<RxConnection>) {
    ghost predicate Valid() {
      && (forall i :: 0 <= i < |tx| ==> tx[i].Valid())
      && (forall i :: 0 <= i < |rx| ==> rx[i].Valid())
      && forall p :: 0 <= p < |pdus| ==> UserOk(pdus[p].user)
    }

    ghost predicate UserOk(u: User) {
      match u
      case TxData(i) => i < |tx|
      case RxFlow(i) => i < |rx|
      case RxPdu(addr, t, r) =>
        && (t.Some? ==> t.value < |tx| && tx[t.value].Valid() && addr == tx[t.value].A())
        && (r.Some? ==> r.value < |rx| && rx[r.value].Valid() && addr == rx[r.value].A())
      case Other => true
    }
  }

  /** A call into an upper layer other than CanTp. */
  datatype Call = Confirmed(p: nat) | Indicated(p: nat, frame: bytes)

  /** Pending flags, CanTp channels and the calls made to other upper layers. */
  datatype State = State(pending: seq<bool>, tx: seq<S.State>, rx: seq<R.State>, calls: seq<Call>)

  ghost predicate Inv(c: Config, s: State) {
    && c.Valid() && |s.pending| == |c.pdus| && |s.tx| == |c.tx| && |s.rx| == |c.rx|
    && (forall i :: 0 <= i < |c.tx| ==> S.Inv(c.tx[i], s.tx[i]))
    && forall i :: 0 <= i < |c.rx| ==> R.Inv(c.rx[i], s.rx[i])
  }

  // ----- Callbacks ------------------------------------------------------------------------------------

  /** The upper layer's Tx confirmation callback. */
  function Confirm(c: Config, s: State, now: nat, p: nat): State
    requires Inv(c, s) && p < |c.pdus|
  {
    match c.pdus[p].user
    case TxData(i) => s.(tx := s.tx[i := S.TxConfirmation(c.tx[i], s.tx[i], now)])
    case RxFlow(i) => s.(rx := s.rx[i := R.TxConfirmation(s.rx[i], now)])
    case Other => s.(calls := s.calls + [Confirmed(p)])
    case _ => s
  }

  /** CanIf_TxConfirmation */
  function TxConfirmation(c: Config, s: State, now: nat, p: nat): State
    requires Inv(c, s)
  {
    if p < |c.pdus| && s.pending[p] then Confirm(c, s.(pending := s.pending[p := false]), now, p) else s
  }

  /** The upper layer's Rx indication callback; CanTp gives flow control to the transmit connection of the pair. */
  function Indicate(c: Config, s: State, now: nat, q: nat, f: R.CanFrame, env: R.RxEnv): State
    requires Inv(c, s) && q < |c.pdus|
  {
    match c.pdus[q].user
    case RxPdu(addr, t, r) =>
      if FrameType(addr, f) == FLOW_CONTROL then
        if t.Some? then s.(tx := s.tx[t.value := S.FlowControl(c.tx[t.value], s.tx[t.value], now, f)]) else s
      else if r.Some? then s.(rx := s.rx[r.value := R.RxIndication(c.rx[r.value], s.rx[r.value], now, f, env)])
      else s
    case Other => s.(calls := s.calls + [Indicated(q, f)])
    case _ => s
  }

  /** Identifiers are compared without the CAN FD flag bits. */
  predicate SameId(c: Config, a: bv32, b: bv32) {
    (a ^ b) & !c.fdMask == 0
  }

  /** The first PDU from k on that carries this identifier. */
  function FirstMatch(c: Config, id: bv32, k: nat): (q: Option<nat>)
    requires k <= |c.pdus|
    ensures q.Some? ==> k <= q.value < |c.pdus| && SameId(c, id, c.pdus[q.value].canId)
    ensures forall j :: k <= j < (if q.Some? then q.value else |c.pdus|) ==> !SameId(c, id, c.pdus[j].canId)
    decreases |c.pdus| - k
  {
    if k == |c.pdus| then None
    else if SameId(c, id, c.pdus[k].canId) then Some(k)
    else FirstMatch(c, id, k + 1)
  }

  /** CanIf_RxIndication */
  function RxIndication(c: Config, s: State, now: nat, id: bv32, f: R.CanFrame, env: R.RxEnv): State
    requires Inv(c, s)
  {
    match FirstMatch(c, id, 0)
    case None => s
    case Some(q) =>
      ConfirmationKeeps(c, s, now, c.pdus[q].fake);
      Indicate(c, TxConfirmation(c, s, now, c.pdus[q].fake), now, q, f, env)
  }

  lemma ConfirmKeeps(c: Config, s: State, now: nat, p: nat)
    requires Inv(c, s) && p < |c.pdus|
    ensures Inv(c, Confirm(c, s, now, p))
  {
    hide S.Inv, R.Inv;
    match c.pdus[p].user
    case TxData(i) => S.ConfirmationKeeps(c.tx[i], s.tx[i], now);
    case RxFlow(i) => R.ConfirmKeeps(c.rx[i], s.rx[i], now);
    case _ =>
  }

  lemma ConfirmationKeeps(c: Config, s: State, now: nat, p: nat)
    requires Inv(c, s)
    ensures Inv(c, TxConfirmation(c, s, now, p))
  {
    hide S.Inv, R.Inv, Confirm;
    if p < |c.pdus| {
      ConfirmKeeps(c, s.(pending := s.pending[p := false]), now, p);
    }
  }

  lemma IndicateKeeps(c: Config, s: State, now: nat, q: nat, f: R.CanFrame, env: R.RxEnv)
    requires Inv(c, s) && q < |c.pdus|
    ensures Inv(c, Indicate(c, s, now, q, f, env)) && Indicate(c, s, now, q, f, env).pending == s.pending
  {
    hide S.Inv, R.Inv, S.FlowControl, R.RxIndication;
    match c.pdus[q].user
    case RxPdu(addr, t, r) =>
      if FrameType(addr, f) == FLOW_CONTROL {
        if t.Some? {
          S.FlowControlKeeps(c.tx[t.value], s.tx[t.value], now, f);
        }
      } else if r.Some? {
        R.FrameKeeps(c.rx[r.value], s.rx[r.value], now, f, env);
      }
    case _ =>
  }

  lemma IndicationKeeps(c: Config, s: State, now: nat, id: bv32, f: R.CanFrame, env: R.RxEnv)
    requires Inv(c, s)
    ensures Inv(c, RxIndication(c, s, now, id, f, env))
  {
    hide Inv, Indicate, TxConfirmation;
    match FirstMatch(c, id, 0)
    case None =>
    case Some(q) =>
      ConfirmationKeeps(c, s, now, c.pdus[q].fake);
      IndicateKeeps(c, TxConfirmation(c, s, now, c.pdus[q].fake), now, q, f, env);
  }

  // ----- Order independence ---------------------------------------------------------------------------

  ghost function ConfirmThenReceive(c: Config, s: State, now: nat, p: nat, id: bv32, f: R.CanFrame, env: R.RxEnv): (r: State)
    requires Inv(c, s)
    ensures Inv(c, r)
  {
    ConfirmationKeeps(c, s, now, p);
    IndicationKeeps(c, TxConfirmation(c, s, now, p), now, id, f, env);
    RxIndication(c, TxConfirmation(c, s, now, p), now, id, f, env)
  }

  ghost function ReceiveThenConfirm(c: Config, s: State, now: nat, p: nat, id: bv32, f: R.CanFrame, env: R.RxEnv): (r: State)
    requires Inv(c, s)
    ensures Inv(c, r)
  {
    IndicationKeeps(c, s, now, id, f, env);
    ConfirmationKeeps(c, RxIndication(c, s, now, id, f, env), now, p);
    TxConfirmation(c, RxIndication(c, s, now, id, f, env), now, p)
  }

  /**
   * When the received PDU names the transmitted one as its fake confirmation, both orders of the two driver
   * events leave CanIf, every CanTp channel and every other upper layer in the same state.
   */
  lemma FakeMakesOrderIrrelevant(c: Config, s: State, now: nat, p: nat, id: bv32, f: R.CanFrame, env: R.RxEnv)
    requires Inv(c, s) && FirstMatch(c, id, 0).Some? && c.pdus[FirstMatch(c, id, 0).value].fake == p
    ensures ConfirmThenReceive(c, s, now, p, id, f, env) == ReceiveThenConfirm(c, s, now, p, id, f, env)
  {
    hide Inv, Indicate, FirstMatch;
    var q := FirstMatch(c, id, 0).value;
    ConfirmationKeeps(c, s, now, p);
    var s1 := TxConfirmation(c, s, now, p);
    ClearedOnce(c, s, now, p);
    IndicateKeeps(c, s1, now, q, f, env);
    SameLength(c, s1);
    ClearedTwice(c, s1, now, p);
    ClearedTwice(c, Indicate(c, s1, now, q, f, env), now, p);
  }

  lemma SameLength(c: Config, s: State)
    ensures Inv(c, s) ==> |s.pending| == |c.pdus|
  {
  }

  /** A confirmation clears its flag. */
  lemma ClearedOnce(c: Config, s: State, now: nat, p: nat)
    requires Inv(c, s)
    ensures p < |c.pdus| ==> |TxConfirmation(c, s, now, p).pending| == |c.pdus| && !TxConfirmation(c, s, now, p).pending[p]
  {
    hide S.Inv, R.Inv;
  }

  lemma ClearedTwice(c: Config, s: State, now: nat, p: nat)
    requires Inv(c, s) && (p < |c.pdus| ==> |s.pending| == |c.pdus| && !s.pending[p])
    ensures TxConfirmation(c, s, now, p) == s
  {
    hide Inv, Confirm;
  }

  // ----- Without the fake confirmation ----------------------------------------------------------------

  /** The confirmation that the sender awaits ends its block with data left over. */
  predicate EndsBlock(c: TxConnection, s: S.State)
    requires c.Valid()
  {
    && s.locked && s.sub == S.WaitConfirmation && s.rem > c.txDl - c.A() - PciSize(s.pci)
    && s.blockCfs == if s.pci == Cf then 1 else 0
  }

  /** The flow control frame is a repeated wait, which changes nothing. */
  predicate RepeatsWait(c: TxConnection, s: S.State, f: bytes)
    requires c.Valid()
  {
    FlowControlCheck(c, f).ok && FlowControlCheck(c, f).low == S.WAIT && s.flow == S.WAIT
  }

  /** Two orders on one channel: they agree unless the frame answers the very block being confirmed. */
  lemma ChannelOrder(c: TxConnection, s: S.State, now: nat, f: bytes)
    requires S.Inv(c, s)
    ensures S.FlowControl(c, S.TxConfirmation(c, s, now), now, f) == S.TxConfirmation(c, S.FlowControl(c, s, now, f), now)
       <==> !EndsBlock(c, s) || RepeatsWait(c, s, f)
  {
    hide ValidDl, Accepts, TxPci, BlockCfs, Offset, FlowControlCheck, S.STminTicks;
  }

  /** The frame with this identifier is flow control for the connection that sent p. */
  ghost predicate Answers(c: Config, p: nat, id: bv32, f: R.CanFrame, i: nat)
    requires c.Valid()
  {
    && p < |c.pdus| && i < |c.tx| && c.pdus[p].user == TxData(i)
    && FirstMatch(c, id, 0).Some?
    && var u := c.pdus[FirstMatch(c, id, 0).value].user;
       u.RxPdu? && u.tx == Some(i) && FrameType(c.tx[i].A(), f) == FLOW_CONTROL
  }

  /** The received PDU fakes a confirmation that the connection's own frame still awaits. */
  ghost predicate Faked(c: Config, s: State, id: bv32, i: nat)
    requires Inv(c, s) && FirstMatch(c, id, 0).Some?
  {
    var g := c.pdus[FirstMatch(c, id, 0).value].fake;
    g < |c.pdus| && s.pending[g] && c.pdus[g].user == TxData(i)
  }

  /** The confirmation of a data frame and any other confirmation can be exchanged. */
  lemma ConfirmationsCommute(c: Config, s: State, now: nat, p: nat, g: nat, i: nat)
    requires Inv(c, s) && p < |c.pdus| && i < |c.tx| && c.pdus[p].user == TxData(i)
    ensures Inv(c, TxConfirmation(c, s, now, p)) && Inv(c, TxConfirmation(c, s, now, g))
    ensures TxConfirmation(c, TxConfirmation(c, s, now, p), now, g) == TxConfirmation(c, TxConfirmation(c, s, now, g), now, p)
  {
    hide S.Inv, R.Inv, S.TxConfirmation, R.TxConfirmation;
    ConfirmationKeeps(c, s, now, p);
    ConfirmationKeeps(c, s, now, g);
    if g < |c.pdus| && g != p && s.pending[p] && s.pending[g] {
      assert s.pending[p := false][g := false] == s.pending[g := false][p := false];
      match c.pdus[g].user
      case TxData(j) =>
        if j != i {
          var a, b := S.TxConfirmation(c.tx[i], s.tx[i], now), S.TxConfirmation(c.tx[j], s.tx[j], now);
          assert s.tx[i := a][j := b] == s.tx[j := b][i := a];
        }
      case _ =>
    }
  }

  /** Without any fake the two orders of confirming p and indicating its answer agree in exactly these cases. */
  lemma PlainOrder(c: Config, s: State, now: nat, p: nat, q: nat, f: R.CanFrame, env: R.RxEnv, i: nat)
    requires Inv(c, s) && p < |c.pdus| && q < |c.pdus| && i < |c.tx| && c.pdus[p].user == TxData(i)
    requires c.pdus[q].user.RxPdu? && c.pdus[q].user.tx == Some(i) && FrameType(c.tx[i].A(), f) == FLOW_CONTROL
    ensures Inv(c, TxConfirmation(c, s, now, p)) && Inv(c, Indicate(c, s, now, q, f, env))
    ensures Indicate(c, TxConfirmation(c, s, now, p), now, q, f, env) == TxConfirmation(c, Indicate(c, s, now, q, f, env), now, p)
       <==> !s.pending[p] || !EndsBlock(c.tx[i], s.tx[i]) || RepeatsWait(c.tx[i], s.tx[i], f)
  {
    hide S.Inv, R.Inv, S.FlowControl, S.TxConfirmation, EndsBlock, RepeatsWait;
    ConfirmationKeeps(c, s, now, p);
    IndicateKeeps(c, s, now, q, f, env);
    ChannelOrder(c.tx[i], s.tx[i], now, f);
    var a, b := Indicate(c, TxConfirmation(c, s, now, p), now, q, f, env), TxConfirmation(c, Indicate(c, s, now, q, f, env), now, p);
    if s.pending[p] {
      assert a.tx[i] == S.FlowControl(c.tx[i], S.TxConfirmation(c.tx[i], s.tx[i], now), now, f);
      assert b.tx[i] == S.TxConfirmation(c.tx[i], S.FlowControl(c.tx[i], s.tx[i], now, f), now);
      assert a.tx == s.tx[i := a.tx[i]] && b.tx == s.tx[i := b.tx[i]];
    }
  }

  /** What the fake confirmation means for connection i: it is confirmed, or nothing about it changes. */
  lemma FakeEffect(c: Config, s: State, now: nat, id: bv32, i: nat, p: nat)
    requires Inv(c, s) && i < |c.tx| && FirstMatch(c, id, 0).Some? && p < |c.pdus| && c.pdus[p].user == TxData(i)
    ensures var s' := TxConfirmation(c, s, now, c.pdus[FirstMatch(c, id, 0).value].fake);
            Inv(c, s')
            && (Faked(c, s, id, i) ==> s'.tx[i] == S.TxConfirmation(c.tx[i], s.tx[i], now))
            && (!Faked(c, s, id, i) ==> s'.tx[i] == s.tx[i] && s'.pending[p] == s.pending[p])
  {
    hide S.Inv, R.Inv, S.TxConfirmation, R.TxConfirmation, FirstMatch;
    ConfirmationKeeps(c, s, now, c.pdus[FirstMatch(c, id, 0).value].fake);
  }

  /** A confirmed channel awaits no confirmation. */
  lemma ConfirmedEndsNoBlock(c: TxConnection, s: S.State, now: nat)
    requires S.Inv(c, s)
    ensures !EndsBlock(c, S.TxConfirmation(c, s, now))
  {
    hide ValidDl, Accepts, TxPci, BlockCfs, Offset;
  }

  /**
   * For every configuration of the fake: the two orders agree exactly when no confirmation of p is pending, or the
   * received PDU fakes the one that the connection awaits, or the awaited one does not end a block, or the frame only
   * repeats a wait.
   */
  lemma OrderMattersExactly(c: Config, s: State, now: nat, p: nat, id: bv32, f: R.CanFrame, env: R.RxEnv, i: nat)
    requires Inv(c, s) && Answers(c, p, id, f, i)
    ensures ConfirmThenReceive(c, s, now, p, id, f, env) == ReceiveThenConfirm(c, s, now, p, id, f, env)
       <==> !s.pending[p] || Faked(c, s, id, i) || !EndsBlock(c.tx[i], s.tx[i]) || RepeatsWait(c.tx[i], s.tx[i], f)
  {
    hide S.Inv, R.Inv, FirstMatch, EndsBlock, Indicate, TxConfirmation, S.TxConfirmation;
    var q := FirstMatch(c, id, 0).value;
    var g := c.pdus[q].fake;
    FakeEffect(c, s, now, id, i, p);
    ConfirmationsCommute(c, s, now, p, g, i);
    ConfirmedEndsNoBlock(c.tx[i], s.tx[i], now);
    PlainOrder(c, TxConfirmation(c, s, now, g), now, p, q, f, env, i);
  }

  /** On one channel: confirmation first makes a clear-to-send frame count; the frame first makes it vanish. */
  lemma ChannelOutcome(c: TxConnection, s: S.State, now: nat, f: bytes)
    requires S.Inv(c, s) && EndsBlock(c, s)
    ensures S.TxConfirmation(c, S.FlowControl(c, s, now, f), now).sub == S.WaitFlowControl
    ensures FlowControlCheck(c, f).ok && FlowControlCheck(c, f).low == S.CTS ==>
              var s' := S.FlowControl(c, S.TxConfirmation(c, s, now), now, f); s'.sub == S.SendConsecutive && s'.blockCfs > 0
  {
    hide ValidDl, Accepts, TxPci, BlockCfs, Offset, FlowControlCheck, S.STminTicks;
    S.ConfirmationKeeps(c, s, now);
  }

  /** Unless it fakes the awaited confirmation, an answer heard first is lost and the sender is left waiting for it. */
  lemma AnswerLost(c: Config, s: State, now: nat, p: nat, id: bv32, f: R.CanFrame, env: R.RxEnv, i: nat)
    requires Inv(c, s) && Answers(c, p, id, f, i) && s.pending[p] && EndsBlock(c.tx[i], s.tx[i]) && !Faked(c, s, id, i)
    ensures ReceiveThenConfirm(c, s, now, p, id, f, env).tx[i].sub == S.WaitFlowControl
  {
    hide S.Inv, R.Inv, S.FlowControl, S.TxConfirmation, FirstMatch, EndsBlock, Indicate, Faked;
    ChannelOutcome(c.tx[i], s.tx[i], now, f);
    FakeEffect(c, s, now, id, i, p);
    IndicateEffect(c, TxConfirmation(c, s, now, c.pdus[FirstMatch(c, id, 0).value].fake), now, p, id, f, env, i);
  }

  /** The answer reaches the connection and no pending flag. */
  lemma IndicateEffect(c: Config, s: State, now: nat, p: nat, id: bv32, f: R.CanFrame, env: R.RxEnv, i: nat)
    requires Inv(c, s) && Answers(c, p, id, f, i)
    ensures var s' := Indicate(c, s, now, FirstMatch(c, id, 0).value, f, env);
            Inv(c, s') && s'.pending == s.pending && s'.tx[i] == S.FlowControl(c.tx[i], s.tx[i], now, f)
  {
    hide S.Inv, R.Inv, S.FlowControl, FirstMatch;
    IndicateKeeps(c, s, now, FirstMatch(c, id, 0).value, f, env);
  }

  /** If it does fake it, a clear-to-send answer opens the next block in either order. */
  lemma AnswerKept(c: Config, s: State, now: nat, p: nat, id: bv32, f: R.CanFrame, env: R.RxEnv, i: nat)
    requires Inv(c, s) && Answers(c, p, id, f, i) && Faked(c, s, id, i) && EndsBlock(c.tx[i], s.tx[i])
    requires FlowControlCheck(c.tx[i], f).ok && FlowControlCheck(c.tx[i], f).low == S.CTS
    ensures var a := ReceiveThenConfirm(c, s, now, p, id, f, env);
            a == ConfirmThenReceive(c, s, now, p, id, f, env) && a.tx[i].sub == S.SendConsecutive && a.tx[i].blockCfs > 0
  {
    hide S.Inv, R.Inv, S.FlowControl, S.TxConfirmation, FirstMatch, EndsBlock, Indicate, TxConfirmation, Faked;
    OrderMattersExactly(c, s, now, p, id, f, env, i);
    ChannelOutcome(c.tx[i], s.tx[i], now, f);
    FakeEffect(c, s, now, id, i, p);
    var s1 := TxConfirmation(c, s, now, c.pdus[FirstMatch(c, id, 0).value].fake);
    IndicateEffect(c, s1, now, p, id, f, env, i);
    var s2 := Indicate(c, s1, now, FirstMatch(c, id, 0).value, f, env);
    LateConfirmation(c, s2, now, p, i);
  }

  /** A confirmation that nobody awaits any more does nothing to the connection. */
  lemma LateConfirmation(c: Config, s: State, now: nat, p: nat, i: nat)
    requires Inv(c, s) && p < |c.pdus| && i < |c.tx| && c.pdus[p].user == TxData(i) && s.tx[i].sub != S.WaitConfirmation
    ensures Inv(c, TxConfirmation(c, s, now, p)) && TxConfirmation(c, s, now, p).tx[i] == s.tx[i]
  {
    hide S.Inv, R.Inv, S.TxConfirmation;
    ConfirmationKeeps(c, s, now, p);
    S.OnlyWaiting(c.tx[i], s.tx[i], now);
  }
}
