/**
 * The whole transport layer of one node: transmit and receive channels over one confirmation table, through which a
 * confirmation finds its channel.
 */
module CanTpNode {
  import opened Bytes
  import opened CanTpConfig
  import opened CanTpFrames
  import S = CanTpSender
  import R = CanTpReceiver
  import TX = CanTpTxChannels
  import RX = CanTpRxChannels

  /** Transmit channels have the numbers below |tx.cfg|, receive channels those behind them. */
  class Node {
    const tx: TX.TxChannels
    const rx: RX.RxChannels
    const lock: array<nat>

    ghost predicate Shape()
      reads this, tx, rx
    {
      && tx.lock == lock && rx.lock == lock && tx.Shape() && rx.Shape()
      && tx.base == 0 && rx.base == |tx.cfg| && tx.invalid == |tx.cfg| + |rx.cfg| == rx.invalid
      && forall i, j :: 0 <= i < |tx.id| && 0 <= j < |rx.id| ==> tx.id[i] != rx.id[j]
    }

    /** Both tables hold their invariants, and an id that no connection uses names no channel. */
    ghost predicate Valid()
      reads this, tx, rx, tx.channel, rx.channel, lock
    {
      && Shape() && tx.Valid() && rx.Valid()
      && forall k :: 0 <= k < lock.Length && k !in tx.id && k !in rx.id ==> lock[k] == tx.invalid
    }

    /** CanTp_Init: no entry names a channel. */
    constructor (txCfg: seq<TxConnection>, txId: seq<nat>, rxCfg: seq<RxConnection>, rxId: seq<nat>, pdus: nat)
      requires |txId| == |txCfg| && |rxId| == |rxCfg|
      requires forall i :: 0 <= i < |txCfg| ==> txCfg[i].Valid() && txId[i] < pdus
      requires forall j :: 0 <= j < |rxCfg| ==> rxCfg[j].Valid() && rxId[j] < pdus
      requires forall i, j :: 0 <= i < j < |txId| ==> txId[i] != txId[j]
      requires forall i, j :: 0 <= i < j < |rxId| ==> rxId[i] != rxId[j]
      requires forall i, j :: 0 <= i < |txId| && 0 <= j < |rxId| ==> txId[i] != rxId[j]
      ensures Valid() && fresh(tx) && fresh(rx) && fresh(tx.channel) && fresh(rx.channel) && fresh(lock)
      ensures tx.cfg == txCfg && tx.id == txId && rx.cfg == rxCfg && rx.id == rxId && lock.Length == pdus
      ensures (forall i :: 0 <= i < |txCfg| ==> tx.Record(i) == S.Init()) && forall j :: 0 <= j < |rxCfg| ==> rx.Record(j) == R.Init()
    {
      hide S.Inv, R.Inv;
      var n := |txCfg| + |rxCfg|;
      var table := new nat[pdus](_ => n);
      lock := table;
      tx := new TX.TxChannels(txCfg, txId, 0, n, table);
      rx := new RX.RxChannels(rxCfg, rxId, |txCfg|, n, table);
    }

    /**
     * The entry of a confirmation id names a transmit channel exactly when the connection with that id awaits the
     * confirmation, and a receive channel exactly when it awaits the confirmation or is blocked.
     */
    lemma LookupFindsWaiting(k: nat, i: nat)
      requires Valid() && k < lock.Length
      ensures i < |tx.cfg| ==> (lock[k] == i <==> tx.id[i] == k && tx.Record(i).locked && tx.Record(i).sub == S.WaitConfirmation)
      ensures i < |rx.cfg| ==> (lock[k] == |tx.cfg| + i <==> rx.id[i] == k && (R.Awaiting(rx.Record(i)) || R.Blocked(rx.Record(i))))
      ensures |tx.cfg| + |rx.cfg| <= lock[k] ==> lock[k] == tx.invalid
    {
      Owner(k);
      if i < |tx.cfg| {
        assert tx.Entry(i);
        S.LockedWaits(tx.cfg[i], tx.Record(i));
      }
      if i < |rx.cfg| {
        assert rx.Entry(i);
        R.LockedMeans(rx.cfg[i], rx.Record(i));
      }
    }

    /** An entry that names a channel is the entry of that channel's connection. */
    lemma Owner(k: nat)
      requires Valid() && k < lock.Length
      ensures lock[k] <= tx.invalid
      ensures lock[k] < |tx.cfg| ==> tx.id[lock[k]] == k
      ensures |tx.cfg| <= lock[k] < tx.invalid ==> rx.id[lock[k] - |tx.cfg|] == k
    {
      hide S.Inv, R.Inv;
      if k in tx.id {
        var i :| 0 <= i < |tx.id| && tx.id[i] == k;
        assert tx.Entry(i);
      } else if k in rx.id {
        var j :| 0 <= j < |rx.id| && rx.id[j] == k;
        assert rx.Entry(j);
      }
    }

    /** A step of transmit channels leaves the receive channels alone. */
    twostate lemma TxLeavesRx()
      requires old(Valid()) && tx.Valid() && unchanged(rx.channel)
      requires forall k :: 0 <= k < lock.Length && k !in tx.id ==> lock[k] == old(lock[k])
      ensures Valid() && forall j :: 0 <= j < |rx.cfg| ==> rx.Record(j) == old(rx.Record(j))
    {
      hide S.Inv, R.Inv;
      forall j | 0 <= j < |rx.cfg|
        ensures rx.Entry(j) && rx.Record(j) == old(rx.Record(j))
      {
        assert old(rx.Entry(j)) && rx.id[j] !in tx.id;
      }
    }

    twostate lemma RxLeavesTx()
      requires old(Valid()) && rx.Valid() && unchanged(tx.channel)
      requires forall k :: 0 <= k < lock.Length && k !in rx.id ==> lock[k] == old(lock[k])
      ensures Valid() && forall i :: 0 <= i < |tx.cfg| ==> tx.Record(i) == old(tx.Record(i))
    {
      hide S.Inv, R.Inv;
      forall i | 0 <= i < |tx.cfg|
        ensures tx.Entry(i) && tx.Record(i) == old(tx.Record(i))
      {
        assert old(tx.Entry(i)) && tx.id[i] !in rx.id;
      }
    }

    /** Without a pending confirmation the steps do nothing. */
    lemma NobodyWaits(k: nat, now: nat)
      requires Valid() && (k < lock.Length ==> lock[k] == tx.invalid)
      ensures forall i :: 0 <= i < |tx.cfg| && tx.id[i] == k ==> S.TxConfirmation(tx.cfg[i], tx.Record(i), now) == tx.Record(i)
      ensures forall j :: 0 <= j < |rx.cfg| && rx.id[j] == k ==> R.TxConfirmation(rx.Record(j), now) == rx.Record(j)
    {
      hide S.Inv, R.Inv, S.TxConfirmation, R.TxConfirmation;
      forall i | 0 <= i < |tx.cfg| && tx.id[i] == k
        ensures S.TxConfirmation(tx.cfg[i], tx.Record(i), now) == tx.Record(i)
      {
        S.OnlyWaiting(tx.cfg[i], tx.Record(i), now);
      }
      forall j | 0 <= j < |rx.cfg| && rx.id[j] == k
        ensures R.TxConfirmation(rx.Record(j), now) == rx.Record(j)
      {
        R.OnlyLocked(rx.Record(j), now);
      }
    }

    /** What a confirmation with id k does to the channels. */
    twostate predicate ConfirmedBy(k: nat, now: nat)
      requires old(Valid()) && Valid()
      reads this, tx, rx, tx.channel, rx.channel, lock
    {
      && (forall i :: 0 <= i < |tx.cfg| ==>
            tx.Record(i) == if tx.id[i] == k then S.TxConfirmation(tx.cfg[i], old(tx.Record(i)), now) else old(tx.Record(i)))
      && forall j :: 0 <= j < |rx.cfg| ==>
           rx.Record(j) == if rx.id[j] == k then R.TxConfirmation(old(rx.Record(j)), now) else old(rx.Record(j))
    }

    /**
     * CanTp_TxConfirmation. The channel found in the table is the one whose connection has this confirmation id; it
     * takes its step and no other channel moves.
     */
    method TxConfirmation(k: nat, now: nat)
      requires Valid()
      modifies tx.channel, rx.channel, lock
      ensures Valid() && ConfirmedBy(k, now)
    {
      hide S.Inv, R.Inv, S.TxConfirmation, R.TxConfirmation;
      var ch := if k < lock.Length then lock[k] else |tx.cfg| + |rx.cfg|;
      if k < lock.Length {
        Owner(k);
      }
      if ch < |tx.cfg| {
        ConfirmTx(k, now);
      } else if ch < |tx.cfg| + |rx.cfg| {
        ConfirmRx(k, now);
      } else {
        NobodyWaits(k, now);
      }
    }

    method ConfirmTx(k: nat, now: nat)
      requires Valid() && k < lock.Length && lock[k] < |tx.cfg| && tx.id[lock[k]] == k
      modifies tx.channel, lock
      ensures Valid() && ConfirmedBy(k, now)
    {
      hide S.Inv, R.Inv, S.TxConfirmation, R.TxConfirmation;
      var i := lock[k];
      tx.Confirmed(i, now);
      tx.OthersKept(i);
      TxLeavesRx();
    }

    method ConfirmRx(k: nat, now: nat)
      requires Valid() && k < lock.Length && |tx.cfg| <= lock[k] < tx.invalid && rx.id[lock[k] - |tx.cfg|] == k
      modifies rx.channel, lock
      ensures Valid() && ConfirmedBy(k, now)
    {
      hide S.Inv, R.Inv, S.TxConfirmation, R.TxConfirmation;
      var j := lock[k] - |tx.cfg|;
      rx.Confirmed(j, now);
      rx.OthersKept(j);
      RxLeavesTx();
    }

    /** CanTp_RxIndication: flow control goes to the transmit connection of the pair, any other frame to the receiving one. */
    method RxIndication(addr: nat, t: Option<nat>, r: Option<nat>, now: nat, f: R.CanFrame, env: R.RxEnv)
      requires Valid() && (t.Some? ==> t.value < |tx.cfg|) && (r.Some? ==> r.value < |rx.cfg|)
      modifies tx.channel, rx.channel
      ensures Valid()
      ensures var flow := FrameType(addr, f) == FLOW_CONTROL;
              && (if flow && t.Some? then
                    var i, s := t.value, old(tx.Records());
                    tx.Records() == s[i := S.FlowControl(tx.cfg[i], s[i], now, f)]
                  else tx.Records() == old(tx.Records()))
              && (if !flow && r.Some? then
                    var j, s := r.value, old(rx.Records());
                    rx.Records() == s[j := R.RxIndication(rx.cfg[j], s[j], now, f, env)]
                  else rx.Records() == old(rx.Records()))
    {
      hide S.Inv, R.Inv, S.FlowControl, R.RxIndication, FrameType;
      if FrameType(addr, f) == FLOW_CONTROL {
        if t.Some? {
          tx.RxFlowControl(t.value, now, f);
          tx.OthersKept(t.value);
          assert tx.id[t.value] in tx.id;
          TxLeavesRx();
        }
      } else if r.Some? {
        rx.RxIndication(r.value, now, f, env);
        rx.OthersKept(r.value);
        assert rx.id[r.value] in rx.id;
        RxLeavesTx();
      }
    }

    /** CanTp_MainFunction over all channels, the transmit channels first. */
    method MainFunction(now: nat, txEnv: seq<S.Env>, rxEnv: seq<R.MainEnv>)
      returns (data: seq<Option<bytes>>, flow: seq<Option<bytes>>)
      requires Valid() && |txEnv| == |tx.cfg| && |rxEnv| == |rx.cfg|
      modifies tx.channel, rx.channel, lock
      ensures Valid() && |data| == |tx.cfg| && |flow| == |rx.cfg|
      ensures forall i :: 0 <= i < |tx.cfg| ==> S.Output(tx.Record(i), data[i]) == S.Main(tx.cfg[i], old(tx.Record(i)), now, txEnv[i])
      ensures forall j :: 0 <= j < |rx.cfg| ==> R.Output(rx.Record(j), flow[j]) == R.Main(rx.cfg[j], old(rx.Record(j)), now, rxEnv[j])
    {
      hide S.Inv, R.Inv, S.Main, R.Main;
      data := tx.MainFunction(now, txEnv);
      TxLeavesRx();
      label between:
      flow := rx.MainFunction(now, rxEnv);
      RxLeavesTx@between();
    }
  }
}
