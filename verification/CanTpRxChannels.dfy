/**
 * The table of receive channels and their part of the confirmation table, updated in place. Every call does to its
 * channel what the step functions of CanTpReceiver say and leaves the other channels and the other entries alone.
 */
module CanTpRxChannels {
  import opened Bytes
  import opened CanTpConfig
  import opened CanTpFrames
  import R = CanTpReceiver

  /**
   * Channel i has the number base + i and the entry id[i] of CanTp_TxConfirmationChannel, the array lock. The locked
   * component of a channel record is not used: a channel is locked when its entry names a channel.
   */
  class RxChannels {
    const cfg: seq<RxConnection>
    const id: seq<nat>
    const base: nat
    const invalid: nat
    const channel: array<R.State>
    const lock: array<nat>

    /** The tables fit each other, and every connection has a confirmation id of its own. */
    ghost predicate Shape()
      reads this
    {
      && channel.Length == |cfg| == |id| && base + |cfg| <= invalid
      && (forall i :: 0 <= i < |cfg| ==> cfg[i].Valid())
      && (forall i :: 0 <= i < |id| ==> id[i] < lock.Length)
      && forall i, j :: 0 <= i < j < |id| ==> id[i] != id[j]
    }

    /** The entry of channel i names channel i or none. */
    ghost predicate Entry(i: nat)
      reads this, lock
    {
      Shape() && i < |cfg| && lock[id[i]] in {base + i, invalid}
    }

    /** The channel as the step functions see it. */
    function Record(i: nat): R.State
      requires Entry(i)
      reads this, channel, lock
    {
      channel[i].(locked := lock[id[i]] != invalid)
    }

    ghost predicate Valid()
      reads this, channel, lock
    {
      Shape() && forall i :: 0 <= i < |cfg| ==> Entry(i) && R.Inv(cfg[i], Record(i))
    }

    /** The whole table as the step functions see it. */
    ghost function Records(): (s: seq<R.State>)
      requires Valid()
      reads this, channel, lock
      ensures |s| == |cfg| && forall i :: 0 <= i < |cfg| ==> s[i] == Record(i)
    {
      seq(|cfg|, i requires Valid() && 0 <= i < |cfg| reads this, channel, lock => Record(i))
    }

    /** Nothing but channel i and its entry changed. */
    twostate predicate Only(i: nat)
      requires Shape() && i < |cfg|
      reads this, channel, lock
    {
      && (forall j :: 0 <= j < channel.Length && j != i ==> channel[j] == old(channel[j]))
      && forall k :: 0 <= k < lock.Length && k != id[i] ==> lock[k] == old(lock[k])
    }

    /** A step of channel i that keeps its invariant keeps the table's. */
    twostate lemma OthersKept(i: nat)
      requires old(Valid()) && i < |cfg| && Only(i) && Entry(i) && R.Inv(cfg[i], Record(i))
      ensures Valid() && forall j :: 0 <= j < |cfg| && j != i ==> Record(j) == old(Record(j))
    {
      hide R.Inv;
      forall j | 0 <= j < |cfg| && j != i
        ensures Entry(j) && Record(j) == old(Record(j))
      {
        assert old(Entry(j)) && id[j] != id[i];
      }
    }

    constructor (cfg: seq<RxConnection>, id: seq<nat>, base: nat, invalid: nat, lock: array<nat>)
      requires |id| == |cfg| && base + |cfg| <= invalid && (forall i :: 0 <= i < |cfg| ==> cfg[i].Valid())
      requires forall i :: 0 <= i < |id| ==> id[i] < lock.Length && lock[id[i]] == invalid
      requires forall i, j :: 0 <= i < j < |id| ==> id[i] != id[j]
      ensures this.cfg == cfg && this.id == id && this.base == base && this.invalid == invalid && this.lock == lock
      ensures Valid() && fresh(channel) && forall i :: 0 <= i < |cfg| ==> Record(i) == R.Init()
    {
      this.cfg, this.id, this.base, this.invalid, this.lock := cfg, id, base, invalid, lock;
      channel := new R.State[|cfg|](_ => R.Init());
    }

    /** PduR_CanTpRxIndication with E_NOT_OK, and the channel is freed. */
    method Abort(i: nat)
      requires Entry(i)
      modifies channel
      ensures Entry(i) && Only(i) && Record(i) == R.Abort(old(Record(i)))
    {
      channel[i] := channel[i].(failures := channel[i].failures + 1);
      channel[i] := channel[i].(sub := R.Idle);
    }

    method Release(i: nat)
      requires Entry(i)
      modifies lock
      ensures Entry(i) && Only(i) && Record(i) == old(Record(i)).(locked := false)
    {
      lock[id[i]] := invalid;
    }

    /** A reception in progress is reported as failed before the new one is admitted. */
    method GetConnectionAcceptance(i: nat)
      requires Entry(i)
      modifies channel
      ensures Entry(i) && Only(i) && Record(i) == R.Restart(old(Record(i)))
    {
      if channel[i].sub != R.Idle {
        channel[i] := channel[i].(failures := channel[i].failures + 1);
      }
    }

    method LengthError(i: nat)
      requires Entry(i)
      modifies channel
      ensures Entry(i) && Only(i) && Record(i) == R.LengthError(old(Record(i)))
    {
      if channel[i].sub == R.WaitConsecutive {
        Abort(i);
      }
    }

    method RxSingle(i: nat, now: nat, f: R.CanFrame, env: R.RxEnv)
      requires Entry(i)
      modifies channel
      ensures Entry(i) && Only(i) && Record(i) == R.RxSingle(cfg[i], old(Record(i)), now, f, env)
    {
      var x := SingleCheck(cfg[i], f);
      if !x.ok {
        LengthError(i);
      } else {
        GetConnectionAcceptance(i);
        channel[i] := channel[i].(len := x.sduLength, rem := x.sduLength, rxDl := |f|, initialTicks := now, sub := R.Idle);
        match env.start
        case Grant(size) =>
          if size >= x.sduLength && env.copyOk {
            var data := f[x.offset..x.offset + x.sduLength];
            channel[i] := channel[i].(copied := data, delivered := channel[i].delivered + [data]);
          } else {
            channel[i] := channel[i].(failures := channel[i].failures + 1, copied := []);
          }
        case TooLong => Abort(i);
        case Reject =>
      }
    }

    /** The upper layer's answer to the first frame of a reception. */
    method StartReception(i: nat, first: bytes, remaining: nat, env: R.RxEnv)
      requires Entry(i)
      modifies channel
      ensures Entry(i) && Only(i) && Record(i) == R.StartReception(old(Record(i)), first, remaining, env)
    {
      match env.start
      case Grant(size) =>
        if size >= |first| && env.copyOk {
          channel[i] := channel[i].(copied := first, rem := remaining, cfs := 0);
          channel[i] := channel[i].(bs := 0, bsOpen := true, fcWait := 0, sn := 1, sub := R.SendFlowControl);
        } else {
          channel[i] := channel[i].(failures := channel[i].failures + 1, copied := []);
        }
      case TooLong =>
        channel[i] := channel[i].(flow := R.OVERFLOW, bs := 0, sub := R.SendFlowControl);
      case Reject =>
    }

    method RxFirst(i: nat, now: nat, f: R.CanFrame, env: R.RxEnv)
      requires Entry(i)
      modifies channel
      ensures Entry(i) && Only(i) && Record(i) == R.RxFirst(cfg[i], old(Record(i)), now, f, env)
    {
      R.FirstLeavesRemainder(cfg[i], f);
      hide FirstCheck, ValidDl, R.StartReception;
      var x := FirstCheck(cfg[i], f);
      if !x.ok {
        LengthError(i);
      } else {
        GetConnectionAcceptance(i);
        channel[i] := channel[i].(len := x.sduLength, rxDl := |f|, initialTicks := now, sub := R.Idle, flow := R.WAIT);
        StartReception(i, f[x.offset..], x.sduLength - (|f| - x.offset), env);
      }
    }

    /** The copy succeeded: advance, ask for the next block when this one is used up, deliver when complete. */
    method TakeSegment(i: nat, now: nat, data: bytes)
      requires Entry(i) && |data| <= channel[i].rem
      modifies channel
      ensures Entry(i) && Only(i) && Record(i) == R.TakeSegment(old(Record(i)), now, data)
    {
      var ch := channel[i];
      ch := ch.(initialTicks := now, copied := ch.copied + data, sn := (ch.sn + 1) % 16);
      ch := ch.(rem := ch.rem - |data|, blockCfs := Dec32(ch.blockCfs), cfs := ch.cfs + 1);
      if ch.blockCfs == 0 {
        ch := ch.(fcWait := 0, flow := R.WAIT, sub := R.SendFlowControl);
      }
      if ch.rem == 0 {
        ch := ch.(delivered := ch.delivered + [ch.copied], sub := R.Idle);
      }
      channel[i] := ch;
    }

    method RxConsecutive(i: nat, now: nat, f: R.CanFrame, env: R.RxEnv)
      requires Entry(i) && R.Inv(cfg[i], Record(i))
      modifies channel
      ensures Entry(i) && Only(i) && Record(i) == R.RxConsecutive(cfg[i], old(Record(i)), now, f, env)
    {
      hide CanDl, BlockCfs, R.TakeSegment;
      var ch := channel[i];
      if ch.sub == R.WaitConsecutive {
        var x := ConsecutiveCheck(cfg[i], ch.rxDl, ch.rem, f);
        R.ConsecutiveTakes(cfg[i], ch.rxDl, ch.rem, f);
        if !x.ok {
          LengthError(i);
        } else if ch.blockCfs != 0 {
          if (cfg[i].strict && Elapsed(now, ch.initialTicks) > cfg[i].crTicks) || x.low != ch.sn {
            Abort(i);
          } else if !env.copyOk {
            channel[i] := ch.(initialTicks := now);
            Abort(i);
          } else {
            TakeSegment(i, now, f[x.offset..x.offset + Min(ch.rem, x.canDl - x.offset)]);
          }
        }
      }
    }

    /** CanTp_RxIndication for a data frame of receive connection i. */
    method RxIndication(i: nat, now: nat, f: R.CanFrame, env: R.RxEnv)
      requires Valid() && i < |cfg|
      modifies channel
      ensures Valid() && Only(i) && Record(i) == R.RxIndication(cfg[i], old(Record(i)), now, f, env)
    {
      hide R.Inv, R.RxSingle, R.RxFirst, R.RxConsecutive, FrameType;
      R.FrameKeeps(cfg[i], Record(i), now, f, env);
      var t := FrameType(cfg[i].A(), f);
      if t == SINGLE {
        RxSingle(i, now, f, env);
      } else if !cfg[i].functional {
        if t == FIRST {
          RxFirst(i, now, f, env);
        } else if t == CONSECUTIVE {
          RxConsecutive(i, now, f, env);
        }
      }
      OthersKept(i);
    }

    method SetRxBlockInfo(i: nat, free: nat)
      requires Entry(i) && ValidDl(channel[i].rxDl)
      modifies channel
      ensures Entry(i) && Only(i) && Record(i) == R.SetRxBlockInfo(cfg[i], old(Record(i)), free)
    {
      hide BlockCfs;
      var ch := channel[i];
      var payload, bs, bsMax := ch.rxDl - cfg[i].A() - 1, ch.bs, cfg[i].bsMax;
      if ch.bsOpen {
        if free >= ch.rem {
          bs := bsMax;
        } else {
          bs := Low8(free / payload);
          if bsMax != 0 && bs > bsMax {
            bs := bsMax;
          }
        }
      }
      if (bs == 0 && free < ch.rem) || (bs != 0 && free < bs as nat * payload && free < ch.rem) {
        channel[i] := ch.(flow := R.WAIT);
      } else {
        var all := GetBlockCfs(ch.rem, payload);
        channel[i] := ch.(blockCfs := if bs != 0 then bs else all, flow := R.CTS, bsOpen := false);
      }
      channel[i] := channel[i].(bs := bs);
    }

    method FcTransmit(i: nat, now: nat, ready: bool, lowerOk: bool) returns (frame: Option<bytes>)
      requires Entry(i) && channel[i].flow < 16
      modifies channel, lock
      ensures Entry(i) && Only(i) && R.Output(Record(i), frame) == R.FcTransmit(cfg[i], old(Record(i)), now, ready, lowerOk)
    {
      hide FlowControlFrame;
      frame := None;
      if ready && channel[i].sub == R.SendFlowControl {
        var buf := new byte[MAX_NPDU];
        var dl := CreateFlowControlFrame(cfg[i], channel[i].flow, channel[i].bs, buf);
        channel[i] := channel[i].(initialTicks := now, sub := R.WaitFcConfirmation);
        lock[id[i]] := base + i;
        if lowerOk {
          frame := Some(buf[..dl]);
        } else {
          Abort(i);
          lock[id[i]] := invalid;
        }
      }
    }

    method SendDecision(i: nat, now: nat, expired: bool, ready: bool, lowerOk: bool) returns (frame: Option<bytes>)
      requires Entry(i) && channel[i].flow < 16
      modifies channel, lock
      ensures Entry(i) && Only(i)
      ensures R.Output(Record(i), frame) == R.SendDecision(cfg[i], old(Record(i)), now, expired, ready, lowerOk)
    {
      hide R.FcTransmit;
      var go := ready;
      if channel[i].flow == R.WAIT && (expired || channel[i].fcWait == 0) {
        if channel[i].fcWait < cfg[i].fcWaitMax {
          channel[i] := channel[i].(fcWait := channel[i].fcWait + 1, initialTicks := now);
          go := true;
        } else {
          Abort(i);
        }
      }
      frame := FcTransmit(i, now, go, lowerOk);
    }

    /** Asks the upper layer for room and negotiates; false when the query fails. */
    method Negotiate(i: nat, free: Option<nat>) returns (granted: bool)
      requires Entry(i) && ValidDl(channel[i].rxDl) && channel[i].flow <= R.OVERFLOW
      modifies channel
      ensures Entry(i) && Only(i) && Record(i) == R.Negotiate(cfg[i], old(Record(i)), free) && channel[i].flow <= R.OVERFLOW
      ensures granted == (free.Some? && channel[i].flow == R.CTS)
    {
      hide R.SetRxBlockInfo, ValidDl;
      granted := false;
      match free {
        case None => Abort(i);
        case Some(n) =>
          if channel[i].flow != R.CTS {
            R.GrantFlow(cfg[i], Record(i), n);
            SetRxBlockInfo(i, n);
          }
          granted := channel[i].flow == R.CTS;
      }
    }

    /** Decides between clear-to-send, wait and overflow, and sends the decision. */
    method SendFlowControlFrame(i: nat, now: nat, env: R.MainEnv) returns (frame: Option<bytes>)
      requires Entry(i) && R.Inv(cfg[i], Record(i).(locked := false)) && channel[i].sub == R.SendFlowControl
      modifies channel, lock
      ensures Entry(i) && Only(i) && R.Output(Record(i), frame) == R.MainSendFlowControl(cfg[i], old(Record(i)), now, env)
    {
      hide R.FcTransmit, R.SendDecision, R.Negotiate, ValidDl, BlockCfs, Elapsed;
      frame := None;
      var flow, expired := channel[i].flow, Elapsed(now, channel[i].initialTicks) >= cfg[i].brTicks;
      if lock[id[i]] == invalid {
        channel[i] := channel[i].(blockCfs := 0);
        if flow == R.OVERFLOW {
          frame := FcTransmit(i, now, true, env.lowerOk);
        } else {
          var granted := Negotiate(i, env.free);
          frame := SendDecision(i, now, expired, granted || (env.free.Some? && flow > R.WAIT), env.lowerOk);
        }
      }
    }

    /** The state function of one channel. */
    method MainChannel(i: nat, now: nat, env: R.MainEnv) returns (frame: Option<bytes>)
      requires Entry(i) && R.Inv(cfg[i], Record(i))
      modifies channel, lock
      ensures Entry(i) && Only(i) && R.Inv(cfg[i], Record(i))
      ensures R.Output(Record(i), frame) == R.Main(cfg[i], old(Record(i)), now, env)
    {
      hide R.MainSendFlowControl, BlockCfs, ValidDl;
      R.MainKeeps(cfg[i], Record(i), now, env);
      frame := None;
      var elapsed := Elapsed(now, channel[i].initialTicks);
      match channel[i].sub
      case Idle =>
      case SendFlowControl => frame := SendFlowControlFrame(i, now, env);
      case WaitFcConfirmation =>
        if elapsed > cfg[i].arTicks {
          Release(i);
          Abort(i);
        }
      case WaitConsecutive =>
        if elapsed > cfg[i].crTicks {
          Abort(i);
        }
    }

    /** CanTp_MainFunction: one pass over the table gives every channel its own step, and only that. */
    method MainFunction(now: nat, env: seq<R.MainEnv>) returns (frames: seq<Option<bytes>>)
      requires Valid() && |env| == |cfg|
      modifies channel, lock
      ensures Valid() && |frames| == |cfg|
      ensures forall i :: 0 <= i < |cfg| ==> R.Output(Record(i), frames[i]) == R.Main(cfg[i], old(Record(i)), now, env[i])
      ensures forall k :: 0 <= k < lock.Length && k !in id ==> lock[k] == old(lock[k])
    {
      hide R.Inv, R.Main;
      frames := [];
      for n := 0 to |cfg|
        invariant |frames| == n && Valid()
        invariant forall i :: 0 <= i < n ==> R.Output(Record(i), frames[i]) == R.Main(cfg[i], old(Record(i)), now, env[i])
        invariant forall i :: n <= i < |cfg| ==> Record(i) == old(Record(i))
        invariant forall k :: 0 <= k < lock.Length && k !in id ==> lock[k] == old(lock[k])
      {
        label before:
        var f := MainChannel(n, now, env[n]);
        frames := frames + [f];
        OthersKept@before(n);
      }
    }

    /** The confirmation of this channel's flow control frame, once the table led here. */
    method Confirmed(i: nat, now: nat)
      requires Valid() && i < |cfg| && lock[id[i]] == base + i
      modifies channel, lock
      ensures Valid() && Only(i) && Record(i) == R.TxConfirmation(old(Record(i)), now)
    {
      hide R.Inv, ValidDl;
      R.ConfirmKeeps(cfg[i], Record(i), now);
      if channel[i].sub == R.WaitFcConfirmation {
        channel[i] := channel[i].(initialTicks := now);
        var flow := channel[i].flow;
        if flow == R.CTS {
          channel[i] := channel[i].(sub := R.WaitConsecutive);
        } else if flow == R.WAIT {
          channel[i] := channel[i].(sub := if channel[i].rem > 0 then R.SendFlowControl else R.Idle);
        } else if flow == R.OVERFLOW {
          Abort(i);
        }
        lock[id[i]] := invalid;
      }
      OthersKept(i);
    }

    method CancelReceive(i: nat) returns (ret: Result)
      requires Valid() && i < |cfg|
      modifies channel, lock
      ensures Valid() && Only(i) && (Record(i), ret) == R.Cancel(cfg[i], old(Record(i)))
    {
      hide R.Inv, ValidDl;
      R.CancelKeeps(cfg[i], Record(i));
      ret := NotOk;
      if channel[i].sub != R.Idle && channel[i].rem > (channel[i].rxDl - cfg[i].A() - 1) % 256 {
        if channel[i].sub == R.WaitFcConfirmation {
          Release(i);
        }
        Abort(i);
        ret := Ok;
      }
      OthersKept(i);
    }
  }
}
