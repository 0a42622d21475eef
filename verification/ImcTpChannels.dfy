/** All channels of the inter-processor protocol, updated in place. */
module ImcTpChannels {
  import opened Bytes
  import I = ImcTp

  /** One row of the message table. */
  datatype Message = Message(imcId: nat, upperTxId: nat)

  /** The first row from k on that satisfies a key test. */
  function FirstImc(cfg: seq<Message>, id: nat, k: nat): (i: nat)
    requires k <= |cfg|
    ensures k <= i <= |cfg| && (i < |cfg| ==> cfg[i].imcId == id) && forall j :: k <= j < i ==> cfg[j].imcId != id
    decreases |cfg| - k
  {
    if k == |cfg| || cfg[k].imcId == id then k else FirstImc(cfg, id, k + 1)
  }

  function FirstUpper(cfg: seq<Message>, id: nat, k: nat): (i: nat)
    requires k <= |cfg|
    ensures k <= i <= |cfg| && (i < |cfg| ==> cfg[i].upperTxId == id) && forall j :: k <= j < i ==> cfg[j].upperTxId != id
    decreases |cfg| - k
  {
    if k == |cfg| || cfg[k].upperTxId == id then k else FirstUpper(cfg, id, k + 1)
  }

  class Channels {
    const cfg: seq<Message>
    const max: nat
    const tx: array<I.TxInfo>
    const rx: array<I.RxInfo>

    ghost predicate Valid()
      reads this, tx, rx
    {
      && tx.Length == rx.Length == |cfg| && max >= 4
      && forall i :: 0 <= i < |cfg| ==> I.TxOk(tx[i])
    }

    constructor (cfg: seq<Message>, max: nat)
      requires max >= 4
      ensures this.cfg == cfg && this.max == max && Valid() && fresh(tx) && fresh(rx)
      ensures forall i :: 0 <= i < |cfg| ==> tx[i] == I.TxInfo(0, 0, 0, [], 0, 0, 0) && rx[i] == I.RxInfo(0, false, 0, [], [], [])
    {
      this.cfg, this.max := cfg, max;
      tx := new I.TxInfo[|cfg|](_ => I.TxInfo(0, 0, 0, [], 0, 0, 0));
      rx := new I.RxInfo[|cfg|](_ => I.RxInfo(0, false, 0, [], [], []));
    }

    method FindByImcId(id: nat) returns (i: nat)
      ensures i == FirstImc(cfg, id, 0)
    {
      i := 0;
      while i < |cfg| && cfg[i].imcId != id
        invariant i <= |cfg| && FirstImc(cfg, id, 0) == FirstImc(cfg, id, i)
      {
        i := i + 1;
      }
    }

    method FindByPdurTxId(id: nat) returns (i: nat)
      ensures i == FirstUpper(cfg, id, 0)
    {
      i := 0;
      while i < |cfg| && cfg[i].upperTxId != id
        invariant i <= |cfg| && FirstUpper(cfg, id, 0) == FirstUpper(cfg, id, i)
      {
        i := i + 1;
      }
    }

    method Transmit(id: nat, sdu: Option<bytes>) returns (ret: Result)
      requires Valid()
      modifies tx
      ensures Valid()
      ensures var i := FirstUpper(cfg, id, 0);
              && ret == (if sdu.Some? && i < |cfg| then Ok else NotOk)
              && tx[..] == if ret == Ok then old(tx[..])[i := I.Transmit(old(tx[i]), sdu.value)] else old(tx[..])
    {
      ret := NotOk;
      var i := FindByPdurTxId(id);
      if sdu.Some? && i < |cfg| {
        tx[i] := tx[i].(sequence := 0, rem := |sdu.value| % I.UINT16, cursor := 0, sdu := sdu.value);
        ret := Ok;
      }
    }

    method CancelTransmit(id: nat) returns (ret: Result)
      requires Valid()
      modifies tx
      ensures Valid()
      ensures var i := FirstUpper(cfg, id, 0);
              if i < |cfg| then tx[..] == old(tx[..])[i := I.Cancel(old(tx[i])).0] && ret == I.Cancel(old(tx[i])).1
              else tx[..] == old(tx[..]) && ret == NotOk
    {
      ret := NotOk;
      var i := FindByPdurTxId(id);
      if i < |cfg| && tx[i].rem != 0 {
        tx[i] := tx[i].(rem := 0);
        ret := Ok;
      }
    }

    /** Sequence number, consecutive mark, and the length in a first frame. */
    method PutControl(s: I.TxInfo, msg: array<byte>) returns (pos: nat)
      requires msg.Length >= 4 && s.rem < I.UINT16
      modifies msg
      ensures pos < msg.Length && msg[..pos] == I.Control(s)
    {
      pos := 0;
      msg[pos] := s.sequence % 16;
      if s.sequence != 0 {
        msg[pos] := msg[pos] + 0x20;
      }
      pos := pos + 1;
      if s.sequence == 0 {
        msg[pos] := s.rem / 256;
        pos := pos + 1;
        msg[pos] := s.rem % 256;
        pos := pos + 1;
      }
    }

    /** Control bytes first, then the upper layer copies its share behind them. */
    method BuildFrame(s: I.TxInfo, msg: array<byte>) returns (pos: nat, count: nat)
      requires max >= 4 && msg.Length == max && I.TxOk(s) && s.rem > 0
      modifies msg
      ensures pos <= max && count == I.Count(max, s) && msg[..pos] == I.NextFrame(max, s)
    {
      pos := PutControl(s, msg);
      count := max - pos;
      if count > s.rem {
        count := s.rem;
      }
      for k := 0 to count
        invariant msg[..pos + k] == I.Control(s) + s.sdu[s.cursor..s.cursor + k]
      {
        msg[pos + k] := s.sdu[s.cursor + k];
        assert msg[..pos + k + 1] == msg[..pos + k] + [msg[pos + k]];
      }
      pos := pos + count;
    }

    method CyclicChannel(i: nat, ready: bool) returns (frame: Option<bytes>)
      requires Valid() && i < |cfg|
      modifies tx
      ensures Valid() && tx[..] == old(tx[..])[i := I.Cyclic(max, old(tx[i]), ready).0]
      ensures frame == I.Cyclic(max, old(tx[i]), ready).1
    {
      frame := None;
      if tx[i].rem > 0 && ready {
        var msg := new byte[max];
        var pos, count := BuildFrame(tx[i], msg);
        frame := Some(msg[..pos]);
        tx[i] := tx[i].(sequence := (tx[i].sequence + 1) % I.UINT8, rem := tx[i].rem - count, cursor := tx[i].cursor + count);
        tx[i] := tx[i].(pending := (tx[i].pending + 1) % I.UINT8, outstanding := tx[i].outstanding + 1);
      }
    }

    /** rbdImc_TpCyclic: each channel with data sends at most one frame, independently of the others. */
    method Cyclic(ready: seq<bool>) returns (frames: seq<Option<bytes>>)
      requires Valid() && |ready| == |cfg|
      modifies tx
      ensures Valid() && |frames| == |cfg|
      ensures forall i :: 0 <= i < |cfg| ==> (tx[i], frames[i]) == I.Cyclic(max, old(tx[i]), ready[i])
    {
      hide I.Cyclic, I.TxOk;
      frames := [];
      for k := 0 to |cfg|
        invariant Valid() && |frames| == k
        invariant forall i :: 0 <= i < k ==> (tx[i], frames[i]) == I.Cyclic(max, old(tx[i]), ready[i])
        invariant forall i :: k <= i < |cfg| ==> tx[i] == old(tx[i])
      {
        ghost var before := tx[..];
        var f := CyclicChannel(k, ready[k]);
        frames := frames + [f];
        assert forall i :: 0 <= i < |cfg| ==> tx[i] == tx[..][i];
        assert forall i :: 0 <= i < |cfg| && i != k ==> tx[i] == before[i];
      }
    }

    method TxConfirmation(id: nat)
      requires Valid()
      modifies tx
      ensures Valid()
      ensures var i := FirstImc(cfg, id, 0);
              tx[..] == if i < |cfg| then old(tx[..])[i := I.TxConfirmation(old(tx[i]))] else old(tx[..])
    {
      var i := FindByImcId(id);
      if i < |cfg| {
        if tx[i].pending > 0 {
          tx[i] := tx[i].(pending := tx[i].pending - 1);
        }
        if tx[i].outstanding > 0 {
          tx[i] := tx[i].(outstanding := tx[i].outstanding - 1);
        }
        if tx[i].pending == 0 && tx[i].rem == 0 {
          tx[i] := tx[i].(oks := tx[i].oks + 1);
        }
      }
    }

    method ReportRxError(i: nat)
      requires i < rx.Length
      modifies rx
      ensures rx[..] == old(rx[..])[i := I.ReportError(old(rx[i]))]
    {
      if rx[i].active {
        rx[i] := rx[i].(active := false, calls := rx[i].calls + [I.Failed]);
      }
    }

    method RxFirstFrame(i: nat, msg: bytes, env: I.RxEnv)
      requires i < rx.Length && |msg| >= 3
      modifies rx
      ensures rx[..] == old(rx[..])[i := I.RxFirstFrame(old(rx[i]), msg, env)]
    {
      var total, data := msg[1] as nat * 256 + msg[2], msg[3..];
      if |data| > total {
        ReportRxError(i);
      } else {
        var ok := env.startOk;
        if ok {
          rx[i] := rx[i].(calls := rx[i].calls + [I.Started(total)], copied := []);
          ok := env.copyOk;
          if ok {
            rx[i] := rx[i].(calls := rx[i].calls + [I.Copied(data)], copied := data);
          } else {
            rx[i] := rx[i].(calls := rx[i].calls + [I.CopyFailed]);
          }
        } else {
          rx[i] := rx[i].(calls := rx[i].calls + [I.Refused]);
        }
        if ok {
          rx[i] := rx[i].(rem := total - |data|, sequence := 1, active := true);
        } else {
          rx[i] := rx[i].(active := false);
        }
      }
    }

    method RxConsecutiveFrame(i: nat, msg: bytes, env: I.RxEnv)
      requires i < rx.Length && |msg| >= 1
      modifies rx
      ensures rx[..] == old(rx[..])[i := I.RxConsecutiveFrame(old(rx[i]), msg, env)]
    {
      var data := msg[1..];
      if msg[0] % 16 != rx[i].sequence % 16 {
        ReportRxError(i);
      } else if |data| > rx[i].rem {
        ReportRxError(i);
      } else if env.copyOk {
        rx[i] := rx[i].(calls := rx[i].calls + [I.Copied(data)], copied := rx[i].copied + data);
        rx[i] := rx[i].(rem := rx[i].rem - |data|, sequence := (rx[i].sequence + 1) % I.UINT8);
      } else {
        rx[i] := rx[i].(calls := rx[i].calls + [I.CopyFailed]);
        ReportRxError(i);
      }
    }

    /** rbdImc_TpRxIndication: unknown ids and null messages are ignored. */
    method RxIndication(id: nat, msg: Option<bytes>, env: I.RxEnv)
      requires Valid()
      modifies rx
      ensures Valid()
      ensures var i := FirstImc(cfg, id, 0);
              rx[..] == if i < |cfg| && msg.Some? then old(rx[..])[i := I.RxIndication(old(rx[i]), msg.value, env)]
                        else old(rx[..])
    {
      hide I.RxFirstFrame, I.RxConsecutiveFrame;
      var i := FindByImcId(id);
      if i < |cfg| && msg.Some? {
        var m := msg.value;
        if |m| < 1 || (m[0] == 0 && |m| < 3) {
          ReportRxError(i);
        } else {
          if m[0] == 0 {
            RxFirstFrame(i, m, env);
          } else {
            RxConsecutiveFrame(i, m, env);
          }
          if rx[i].rem == 0 && rx[i].active {
            rx[i] := rx[i].(active := false, sequence := 0);
            rx[i] := rx[i].(calls := rx[i].calls + [I.Done], delivered := rx[i].delivered + [rx[i].copied]);
          }
        }
      }
    }
  }
}
