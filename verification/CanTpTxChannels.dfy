/**
 * The table of transmit channels and their part of the confirmation table, updated in place. Every call does to its
 * channel what the step functions of CanTpSender say and leaves the other channels and the other entries alone.
 */
module CanTpTxChannels {
  import opened Bytes
  import opened CanTpConfig
  import opened CanTpFrames
  import opened CanTpSegments
  import S = CanTpSender

  /**
   * Channel i has the number base + i and the entry id[i] of CanTp_TxConfirmationChannel, the array lock. The locked
   * component of a channel record is not used: a channel is locked when its entry names a channel.
   */
  class TxChannels {
    const cfg: seq<TxConnection>
    const id: seq<nat>
    const base: nat
    const invalid: nat
    const channel: array<S.State>
    const lock: array<nat>

    /** The tables fit each other, and every connection has a confirmation id of its own. */
    ghost predicate Shape()
      reads this
    {
      && channel.Length == |cfg| == |id| && base + |cfg| <= invalid
      && (forall i :: 0 <= i < |cfg| ==> cfg[i].Valid())
      && (forall i :: 0 <= i < |id| ==> id[i] < lock.Length)
      && forall i, j :: 0 <= i < j < |id| ==> id[i] != id[j]
    }

    /** The entry of channel i names channel i or none. */
    ghost predicate Entry(i: nat)
      reads this, lock
    {
      Shape() && i < |cfg| && lock[id[i]] in {base + i, invalid}
    }

    /** The channel as the step functions see it. */
    function Record(i: nat): S.State
      requires Entry(i)
      reads this, channel, lock
    {
      channel[i].(locked := lock[id[i]] != invalid)
    }

    ghost predicate Valid()
      reads this, channel, lock
    {
      Shape() && forall i :: 0 <= i < |cfg| ==> Entry(i) && S.Inv(cfg[i], Record(i))
    }

    /** The whole table as the step functions see it. */
    ghost function Records(): (s: seq<S.State>)
      requires Valid()
      reads this, channel, lock
      ensures |s| == |cfg| && forall i :: 0 <= i < |cfg| ==> s[i] == Record(i)
    {
      seq(|cfg|, i requires Valid() && 0 <= i < |cfg| reads this, channel, lock => Record(i))
    }

    /** Nothing but channel i and its entry changed. */
    twostate predicate Only(i: nat)
      requires Shape() && i < |cfg|
      reads this, channel, lock
    {
      && (forall j :: 0 <= j < channel.Length && j != i ==> channel[j] == old(channel[j]))
      && forall k :: 0 <= k < lock.Length && k != id[i] ==> lock[k] == old(lock[k])
    }

    /** A step of channel i that keeps its invariant keeps the table's. */
    twostate lemma OthersKept(i: nat)
      requires old(Valid()) && i < |cfg| && Only(i) && Entry(i) && S.Inv(cfg[i], Record(i))
      ensures Valid() && forall j :: 0 <= j < |cfg| && j != i ==> Record(j) == old(Record(j))
    {
      hide S.Inv;
      forall j | 0 <= j < |cfg| && j != i
        ensures Entry(j) && Record(j) == old(Record(j))
      {
        assert old(Entry(j)) && id[j] != id[i];
      }
    }

    constructor (cfg: seq<TxConnection>, id: seq<nat>, base: nat, invalid: nat, lock: array<nat>)
      requires |id| == |cfg| && base + |cfg| <= invalid && (forall i :: 0 <= i < |cfg| ==> cfg[i].Valid())
      requires forall i :: 0 <= i < |id| ==> id[i] < lock.Length && lock[id[i]] == invalid
      requires forall i, j :: 0 <= i < j < |id| ==> id[i] != id[j]
      ensures this.cfg == cfg && this.id == id && this.base == base && this.invalid == invalid && this.lock == lock
      ensures Valid() && fresh(channel) && forall i :: 0 <= i < |cfg| ==> Record(i) == S.Init()
    {
      this.cfg, this.id, this.base, this.invalid, this.lock := cfg, id, base, invalid, lock;
      channel := new S.State[|cfg|](_ => S.Init());
    }

    /** CanTp_Prv_PduRConfirmation with E_NOT_OK, and the channel is freed. */
    method Abort(i: nat)
      requires Entry(i)
      modifies channel
      ensures Entry(i) && Record(i) == S.Abort(old(Record(i))) && Only(i)
    {
      channel[i] := channel[i].(results := channel[i].results + [NotOk]);
      channel[i] := channel[i].(sub := S.Idle);
    }

    method Release(i: nat)
      requires Entry(i)
      modifies lock
      ensures Entry(i) && Record(i) == old(Record(i)).(locked := false) && Only(i)
    {
      lock[id[i]] := invalid;
    }

    method Transmit(i: nat, now: nat, request: Option<bytes>) returns (ret: Result)
      requires Valid() && i < |cfg|
      modifies channel
      ensures Valid() && Only(i) && (Record(i), ret) == S.Transmit(cfg[i], old(Record(i)), now, request)
    {
      hide S.Inv, Accepts, TxPci, ValidDl;
      S.TransmitKeeps(cfg[i], Record(i), now, request);
      ret := NotOk;
      if request.Some? && Accepts(cfg[i], |request.value|) && channel[i].sub == S.Idle {
        var len := |request.value|;
        channel[i] := channel[i].(pci := TxPci(cfg[i], len), len := len, initialTicks := now);
        channel[i] := channel[i].(bufferAvailable := false, stmin := None);
        channel[i] := channel[i].(sub := S.Accepted, sdu := request.value, cursor := 0, cfs := 0);
        ret := Ok;
      }
      OthersKept(i);
    }

    method CancelTransmit(i: nat) returns (ret: Result)
      requires Valid() && i < |cfg|
      modifies channel, lock
      ensures Valid() && Only(i) && (Record(i), ret) == S.Cancel(cfg[i], old(Record(i)))
    {
      hide S.Inv, ValidDl;
      S.CancelKeeps(cfg[i], Record(i));
      ret := NotOk;
      if !cfg[i].cancelDisabled && channel[i].sub != S.Idle {
        if channel[i].sub == S.WaitConfirmation {
          Release(i);
        }
        Abort(i);
        ret := Ok;
      }
      OthersKept(i);
    }

    method GetTxBuffer(i: nat, payload: nat, query: S.Query, elapsed: nat)
      requires Entry(i)
      modifies channel
      ensures Entry(i) && Only(i) && Record(i) == S.GetTxBuffer(cfg[i], old(Record(i)), payload, query, elapsed)
    {
      if elapsed < cfg[i].csTicks {
        if !channel[i].bufferAvailable {
          match query
          case Available(n) =>
            if n >= payload {
              channel[i] := channel[i].(bufferAvailable := true);
            }
          case Busy =>
          case Refused => Abort(i);
        }
      } else if !channel[i].bufferAvailable {
        Abort(i);
      }
    }

    /** Frame creation into a stack buffer; the upper layer's cursor moves by the bytes taken. */
    method CreateFrame(i: nat) returns (frame: bytes)
      requires Entry(i) && S.Ready(cfg[i], Record(i))
      modifies channel
      ensures Entry(i) && Only(i) && frame == S.CreateFrame(cfg[i], old(Record(i)))
      ensures Record(i) == old(Record(i)).(cursor := old(Record(i)).cursor + S.NextPayload(cfg[i], old(Record(i))))
    {
      hide Accepts, TxPci, SingleFrame, FirstFrame, ConsecutiveFrame, CanDl, Padded, ValidDl;
      var c, ch := cfg[i], channel[i];
      var buf := new byte[MAX_NPDU];
      var dl;
      if IsSingle(ch.pci) {
        dl := CreateSingleFrame(c, ch.sdu, buf);
      } else if IsFirst(ch.pci) {
        dl := CreateFirstFrame(c, ch.sdu, buf);
      } else {
        dl := CreateConsecutiveFrame(c, ch.sn, ch.sdu[ch.cursor..ch.cursor + S.NextPayload(c, ch)], buf);
      }
      frame := buf[..dl];
      channel[i] := ch.(cursor := ch.cursor + S.NextPayload(c, ch));
    }

    /** The entry is set before CanIf_Transmit is called and taken back when it refuses. */
    method CanIfTransmit(i: nat, env: S.Env) returns (frame: Option<bytes>)
      requires Entry(i) && S.Ready(cfg[i], Record(i)) && lock[id[i]] == invalid
      modifies channel, lock
      ensures Entry(i) && Only(i) && S.Output(Record(i), frame) == S.CanIfTransmit(cfg[i], old(Record(i)), env)
    {
      hide S.Ready, S.CreateFrame, S.NextPayload;
      frame := None;
      if env.copyOk {
        var f := CreateFrame(i);
        lock[id[i]] := base + i;
        if env.lowerOk {
          frame := Some(f);
        } else {
          Abort(i);
          lock[id[i]] := invalid;
        }
      }
    }

    /** The channel hands a frame down and waits for its confirmation. */
    method Send(i: nat, now: nat, pci: Pci, env: S.Env) returns (frame: Option<bytes>)
      requires Entry(i) && lock[id[i]] == invalid
      requires S.Ready(cfg[i], Record(i).(pci := pci, initialTicks := now, sub := S.WaitConfirmation))
      modifies channel, lock
      ensures Entry(i) && Only(i)
      ensures var o := S.CanIfTransmit(cfg[i], old(Record(i)).(pci := pci, initialTicks := now, sub := S.WaitConfirmation), env);
              S.Output(Record(i), frame) == o.(s := o.s.(bufferAvailable := false))
    {
      hide S.CanIfTransmit, S.Ready;
      channel[i] := channel[i].(pci := pci, initialTicks := now, sub := S.WaitConfirmation);
      frame := CanIfTransmit(i, env);
      channel[i] := channel[i].(bufferAvailable := false);
    }

    method TransmissionRequestAccepted(i: nat, now: nat, env: S.Env) returns (frame: Option<bytes>)
      requires Entry(i) && S.Inv(cfg[i], Record(i).(locked := false)) && channel[i].sub == S.Accepted
      modifies channel, lock
      ensures Entry(i) && Only(i) && S.Output(Record(i), frame) == S.MainAccepted(cfg[i], old(Record(i)), now, env)
    {
      hide S.CanIfTransmit, Accepts, Elapsed;
      frame := None;
      var elapsed := Elapsed(now, channel[i].initialTicks);
      if lock[id[i]] == invalid {
        channel[i] := channel[i].(blockCfs := 0, rem := channel[i].len, sn := 1);
        GetTxBuffer(i, S.NextPayload(cfg[i], Record(i)), env.query, elapsed);
        if channel[i].bufferAvailable {
          frame := Send(i, now, channel[i].pci, env);
        }
      } else if elapsed > cfg[i].asTicks {
        channel[i] := channel[i].(results := channel[i].results + [NotOk]);
        lock[id[i]] := invalid;
      }
    }

    method SendConsecutiveFrame(i: nat, now: nat, env: S.Env) returns (frame: Option<bytes>)
      requires Entry(i) && S.Inv(cfg[i], Record(i)) && channel[i].sub == S.SendConsecutive
      modifies channel, lock
      ensures Entry(i) && Only(i) && S.Output(Record(i), frame) == S.MainSendConsecutive(cfg[i], old(Record(i)), now, env)
    {
      hide S.CanIfTransmit, Accepts, ValidDl, TxPci, BlockCfs, Offset, Elapsed;
      frame := None;
      var elapsed, rem, full := Elapsed(now, channel[i].initialTicks), channel[i].rem, cfg[i].Payload();
      if lock[id[i]] == invalid {
        GetTxBuffer(i, if rem < full then rem else full, env.query, elapsed);
        var ch := channel[i];
        if ch.bufferAvailable && ((ch.stmin.Some? && elapsed >= ch.stmin.value) || ch.pci != Cf) {
          frame := Send(i, now, Cf, env);
        }
      }
    }

    /** The state function of one channel. */
    method MainChannel(i: nat, now: nat, env: S.Env) returns (frame: Option<bytes>)
      requires Entry(i) && S.Inv(cfg[i], Record(i))
      modifies channel, lock
      ensures Entry(i) && Only(i) && S.Inv(cfg[i], Record(i))
      ensures S.Output(Record(i), frame) == S.Main(cfg[i], old(Record(i)), now, env)
    {
      hide S.MainAccepted, S.MainSendConsecutive, S.Inv, ValidDl;
      S.MainKeeps(cfg[i], Record(i), now, env);
      S.UnlockedKeeps(cfg[i], Record(i));
      frame := None;
      var elapsed := Elapsed(now, channel[i].initialTicks);
      match channel[i].sub
      case Idle =>
      case Accepted => frame := TransmissionRequestAccepted(i, now, env);
      case WaitConfirmation =>
        if elapsed > cfg[i].asTicks {
          Release(i);
          Abort(i);
        }
      case WaitFlowControl =>
        if elapsed > cfg[i].bsTicks {
          Abort(i);
        }
      case SendConsecutive => frame := SendConsecutiveFrame(i, now, env);
    }

    /** CanTp_MainFunction: one pass over the table gives every channel its own step, and only that. */
    method MainFunction(now: nat, env: seq<S.Env>) returns (frames: seq<Option<bytes>>)
      requires Valid() && |env| == |cfg|
      modifies channel, lock
      ensures Valid() && |frames| == |cfg|
      ensures forall i :: 0 <= i < |cfg| ==> S.Output(Record(i), frames[i]) == S.Main(cfg[i], old(Record(i)), now, env[i])
      ensures forall k :: 0 <= k < lock.Length && k !in id ==> lock[k] == old(lock[k])
    {
      hide S.Inv, S.Main;
      frames := [];
      for n := 0 to |cfg|
        invariant |frames| == n && Valid()
        invariant forall i :: 0 <= i < n ==> S.Output(Record(i), frames[i]) == S.Main(cfg[i], old(Record(i)), now, env[i])
        invariant forall i :: n <= i < |cfg| ==> Record(i) == old(Record(i))
        invariant forall k :: 0 <= k < lock.Length && k !in id ==> lock[k] == old(lock[k])
      {
        label before:
        var f := MainChannel(n, now, env[n]);
        frames := frames + [f];
        OthersKept@before(n);
      }
    }

    /** What a confirmed frame leads to. */
    method Advance(i: nat, now: nat)
      requires Entry(i) && channel[i].sub == S.WaitConfirmation && lock[id[i]] == base + i
      modifies channel, lock
      ensures Entry(i) && Only(i) && Record(i) == S.TxConfirmation(cfg[i], old(Record(i)), now)
    {
      hide ValidDl;
      var ch := channel[i];
      var maxCopy := cfg[i].txDl - cfg[i].A() - PciSize(ch.pci);
      ch := ch.(initialTicks := now, rem := if ch.rem < maxCopy then 0 else ch.rem - maxCopy);
      if ch.pci == Cf {
        ch := ch.(sn := (ch.sn + 1) % 16, blockCfs := Dec32(ch.blockCfs), cfs := ch.cfs + 1);
      }
      if ch.rem == 0 {
        ch := ch.(sub := S.Idle, results := ch.results + [Ok]);
      } else if ch.blockCfs != 0 {
        ch := ch.(sub := S.SendConsecutive);
      } else {
        ch := ch.(sub := S.WaitFlowControl, pci := Fc);
      }
      channel[i] := ch;
      lock[id[i]] := invalid;
    }

    /** The confirmation of this channel's data frame, once the table led here. */
    method Confirmed(i: nat, now: nat)
      requires Valid() && i < |cfg| && lock[id[i]] == base + i
      modifies channel, lock
      ensures Valid() && Only(i) && Record(i) == S.TxConfirmation(cfg[i], old(Record(i)), now)
    {
      hide S.Inv, S.TxConfirmation;
      S.ConfirmationKeeps(cfg[i], Record(i), now);
      S.OnlyWaiting(cfg[i], Record(i), now);
      if channel[i].sub == S.WaitConfirmation {
        Advance(i, now);
      }
      OthersKept(i);
    }

    method SetTxBlockInfo(i: nat, bs: byte, st: byte)
      requires Entry(i)
      modifies channel
      ensures Entry(i) && Only(i) && Record(i) == S.SetTxBlockInfo(cfg[i], old(Record(i)), bs, st)
    {
      if channel[i].stmin.None? {
        channel[i] := channel[i].(bs := bs, stmin := Some(S.STminTicks(cfg[i], st)));
      }
      var all := GetBlockCfs(channel[i].rem, cfg[i].Payload());
      if channel[i].bs == 0 || channel[i].bs > all {
        channel[i] := channel[i].(blockCfs := all);
      } else {
        channel[i] := channel[i].(blockCfs := channel[i].bs);
      }
    }

    /** CanTp_Prv_ProcessRxFlowControlFrame in the wait for flow control. */
    method Obey(i: nat, now: nat, f: bytes)
      requires Entry(i) && channel[i].sub == S.WaitFlowControl
      modifies channel
      ensures Entry(i) && Only(i) && Record(i) == S.FlowControl(cfg[i], old(Record(i)), now, f)
    {
      hide ValidDl, S.SetTxBlockInfo, FlowControlCheck, Elapsed;
      var x := FlowControlCheck(cfg[i], f);
      if !x.ok || (cfg[i].strict && Elapsed(now, channel[i].initialTicks) > cfg[i].bsTicks) {
        Abort(i);
      } else {
        channel[i] := channel[i].(initialTicks := now);
        if x.low == S.WAIT {
          channel[i] := channel[i].(flow := S.WAIT);
        } else if x.low == S.CTS {
          channel[i] := channel[i].(flow := S.CTS);
          SetTxBlockInfo(i, At(f, x.offset), At(f, x.offset + 1));
          channel[i] := channel[i].(sub := S.SendConsecutive);
        } else {
          Abort(i);
        }
      }
    }

    /** CanTp_RxIndication for a flow control frame. */
    method RxFlowControl(i: nat, now: nat, f: bytes)
      requires Valid() && i < |cfg|
      modifies channel
      ensures Valid() && Only(i) && Record(i) == S.FlowControl(cfg[i], old(Record(i)), now, f)
    {
      hide S.Inv, S.FlowControl;
      S.FlowControlKeeps(cfg[i], Record(i), now, f);
      S.OnlyAwaiting(cfg[i], Record(i), now, f);
      if channel[i].sub == S.WaitFlowControl {
        Obey(i, now, f);
      }
      OthersKept(i);
    }
  }
}
