/** CanIf's pending flags updated in place, on top of the transport layer. */
module CanIfInterface {
  import opened Bytes
  import opened CanTpConfig
  import S = CanTpSender
  import R = CanTpReceiver
  import N = CanTpNode
  import F = CanIf

  class Interface {
    const c: F.Config
    const pending: array<bool>
    const tp: N.Node
    var calls: seq<F.Call>

    ghost predicate Shape()
      reads this, tp, tp.tx, tp.rx, tp.tx.channel, tp.rx.channel, tp.lock
    {
      tp.Valid() && tp.tx.cfg == c.tx && tp.rx.cfg == c.rx
    }

    ghost function Abs(): F.State
      requires Shape()
      reads this, pending, tp, tp.tx, tp.rx, tp.tx.channel, tp.rx.channel, tp.lock
    {
      F.State(pending[..], tp.tx.Records(), tp.rx.Records(), calls)
    }

    ghost predicate Valid()
      reads this, pending, tp, tp.tx, tp.rx, tp.tx.channel, tp.rx.channel, tp.lock
    {
      Shape() && c.Valid() && pending.Length == |c.pdus|
    }

    lemma ValidMeansInv()
      requires Valid()
      ensures F.Inv(c, Abs())
    {
      hide S.Inv, R.Inv;
    }

    /** CanIf_Init clears every pending flag. */
    constructor (c: F.Config, tp: N.Node)
      requires c.Valid() && tp.Valid() && tp.tx.cfg == c.tx && tp.rx.cfg == c.rx
      ensures this.c == c && this.tp == tp && fresh(pending) && Valid() && calls == []
      ensures forall p :: 0 <= p < |c.pdus| ==> !pending[p]
    {
      hide S.Inv, R.Inv;
      this.c, this.tp, this.calls := c, tp, [];
      pending := new bool[|c.pdus|](_ => false);
    }

    /** CanIf_Transmit: a frame that the driver takes is marked as awaiting confirmation. */
    method Transmit(p: nat, started: bool, driverOk: bool) returns (ret: Result)
      requires Valid()
      modifies pending
      ensures Valid() && ret == if p < |c.pdus| && started && driverOk then Ok else NotOk
      ensures Abs() == if ret == Ok then old(Abs()).(pending := old(pending[..])[p := true]) else old(Abs())
    {
      hide S.Inv, R.Inv;
      ret := NotOk;
      if p < |c.pdus| && started && driverOk {
        pending[p] := true;
        ret := Ok;
      }
    }

    /** CanIf_TxConfirmation: only a pending flag lets the confirmation through, and it is cleared first. */
    method TxConfirmation(now: nat, p: nat)
      requires Valid()
      modifies this, pending, tp.tx.channel, tp.rx.channel, tp.lock
      ensures Valid() && F.Inv(c, old(Abs())) && Abs() == F.TxConfirmation(c, old(Abs()), now, p)
    {
      hide S.Inv, R.Inv, S.TxConfirmation, R.TxConfirmation;
      ValidMeansInv();
      if p < |c.pdus| && pending[p] {
        pending[p] := false;
        Confirm(now, p);
      }
    }

    /** The upper layer's Tx confirmation callback. */
    method Confirm(now: nat, p: nat)
      requires Valid() && p < |c.pdus|
      modifies this, tp.tx.channel, tp.rx.channel, tp.lock
      ensures Valid() && F.Inv(c, old(Abs())) && Abs() == F.Confirm(c, old(Abs()), now, p)
    {
      hide S.Inv, R.Inv, S.TxConfirmation, R.TxConfirmation;
      ValidMeansInv();
      match c.pdus[p].user
      case TxData(i) => tp.TxConfirmation(tp.tx.id[i], now);
      case RxFlow(i) => tp.TxConfirmation(tp.rx.id[i], now);
      case Other => calls := calls + [F.Confirmed(p)];
      case _ =>
    }

    /** CanIf_GetPduId: linear search for the first match. */
    method GetPduId(id: bv32) returns (q: Option<nat>)
      ensures q == F.FirstMatch(c, id, 0)
    {
      for k := 0 to |c.pdus|
        invariant F.FirstMatch(c, id, 0) == F.FirstMatch(c, id, k)
      {
        if F.SameId(c, id, c.pdus[k].canId) {
          return Some(k);
        }
      }
      return None;
    }

    method Indicate(now: nat, q: nat, f: R.CanFrame, env: R.RxEnv)
      requires Valid() && q < |c.pdus|
      modifies this, tp.tx.channel, tp.rx.channel
      ensures Valid() && F.Inv(c, old(Abs())) && Abs() == F.Indicate(c, old(Abs()), now, q, f, env)
    {
      hide S.Inv, R.Inv, S.FlowControl, R.RxIndication;
      ValidMeansInv();
      match c.pdus[q].user
      case RxPdu(addr, t, r) => tp.RxIndication(addr, t, r, now, f, env);
      case Other => calls := calls + [F.Indicated(q, f)];
      case _ =>
    }

    /** CanIf_RxIndication: the fake confirmation first, then the frame. */
    method RxIndication(now: nat, id: bv32, f: R.CanFrame, env: R.RxEnv)
      requires Valid()
      modifies this, pending, tp.tx.channel, tp.rx.channel, tp.lock
      ensures Valid() && F.Inv(c, old(Abs())) && Abs() == F.RxIndication(c, old(Abs()), now, id, f, env)
    {
      hide S.Inv, R.Inv, F.Indicate, F.FirstMatch, F.TxConfirmation;
      ValidMeansInv();
      var q := GetPduId(id);
      if q.Some? {
        TxConfirmation(now, c.pdus[q.value].fake);
        Indicate(now, q.value, f, env);
      }
    }
  }
}
