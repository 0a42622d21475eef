/**
 * The diagnostic server on its own variables: the service index is a byte whose invalid values mean that nothing is
 * pending, and the timers are stored records that are looked at before they are used.
 */
module UdsServer {
  import opened Bytes
  import opened ElTime
  import U = UdsCore

  const INVALID_INDEX: byte := 0xFF

  class Server {
    const t: U.Table
    // Uds_CtrlBlk
    var isBusy: bool
    var rcrrpTxConfirm: bool
    var rcrrpSidIndex: byte
    var suppressPosResp: bool
    var rcrrpTimer: RbTimer
    var rcrrpPendingTimer: RbTimer
    var s3Timer: RbTimer
    // The clock, and what was done.
    var now: nat
    var log: seq<U.Note>

    /** The meaning of the variables. */
    ghost function State(): U.State
      reads this
    {
      U.State(isBusy, rcrrpTxConfirm, if rcrrpSidIndex < |t| then Some(rcrrpSidIndex) else None, suppressPosResp,
              rcrrpTimer.Meaning(), rcrrpPendingTimer.Meaning(), s3Timer.Meaning(), now, log)
    }

    /** No stored timer runs ahead of the clock. */
    ghost predicate Ticking()
      reads this
    {
      rcrrpTimer.Consistent(now) && rcrrpPendingTimer.Consistent(now) && s3Timer.Consistent(now)
    }

    ghost predicate Valid()
      reads this
    {
      Ticking() && U.Inv(t, State())
    }

    constructor (t: U.Table)
      ensures this.t == t && State() == U.Init() && Valid()
    {
      this.t := t;
      isBusy, rcrrpTxConfirm, rcrrpSidIndex, suppressPosResp := false, false, INVALID_INDEX, false;
      rcrrpTimer, rcrrpPendingTimer, s3Timer, now, log := UNSET, UNSET, UNSET, 0, [];
    }

    method SetIdle()
      requires Ticking()
      modifies this
      ensures Ticking() && State() == U.SetIdle(old(State()))
    {
      isBusy, rcrrpTxConfirm, rcrrpSidIndex := false, false, INVALID_INDEX;
      suppressPosResp, rcrrpTimer := false, UNSET;
    }

    method StartS3()
      requires Ticking()
      modifies this`s3Timer
      ensures Ticking() && State() == U.StartS3(old(State()))
    {
      s3Timer := Started(now, U.S3_MS);
    }

    method SendResponse(n: U.Note)
      requires Ticking()
      modifies this`log
      ensures Ticking() && State() == U.Record(old(State()), n)
    {
      log := log + [n];
    }

    method SendNegative(sid: byte, nrc: byte)
      requires Ticking()
      modifies this
      ensures Ticking() && State() == U.SendNegative(old(State()), sid, nrc)
    {
      SendResponse(U.Final(sid, U.Negative(nrc), false));
      SetIdle();
    }

    /** Uds_CoreTxConfirmation */
    method Confirm()
      requires Ticking()
      modifies this
      ensures Ticking() && State() == U.TxConfirmation(old(State()))
    {
      if rcrrpSidIndex >= |t| {
        StartS3();
      } else {
        rcrrpTxConfirm := true;
      }
    }

    method TxConfirmation()
      requires Valid()
      modifies this
      ensures Valid() && State() == U.TxConfirmation(old(State()))
    {
      Confirm();
    }

    method SendPositive(sid: byte)
      requires Ticking()
      modifies this
      ensures Ticking() && State() == U.SendPositive(old(State()), sid)
    {
      SendResponse(U.Final(sid, U.Positive, suppressPosResp));
      if suppressPosResp {
        Confirm();
      }
      SetIdle();
    }

    method SendPending(sid: byte)
      requires Ticking()
      modifies this
      ensures Ticking() && State() == U.SendPending(old(State()), sid)
    {
      SendResponse(U.Pending(sid));
      rcrrpTimer := Started(now, U.RCRRP_REPEAT_MS);
      suppressPosResp, rcrrpTxConfirm := false, false;
    }

    /** UdsResponse_function */
    method Respond(i: nat, code: U.Code)
      requires Ticking() && i < |t| && rcrrpSidIndex >= |t|
      modifies this
      ensures Ticking() && State() == U.Respond(t, old(State()), i, code)
    {
      match code
      case Positive => SendPositive(t[i].sid);
      case ResponsePending =>
        rcrrpPendingTimer := Started(now, U.RCRRP_LIMIT_MS);
        if !t[i].pending {
          SendNegative(t[i].sid, U.GENERAL_REJECT);
        } else {
          rcrrpSidIndex := i;
          SendPending(t[i].sid);
        }
      case Negative(nrc) => SendNegative(t[i].sid, nrc);
    }

    /** The search loop over the service table, and what becomes of the request. */
    method Dispatch(req: bytes, session: nat, a: U.Answer)
      requires Ticking() && |req| > 0 && rcrrpSidIndex >= |t|
      modifies this
      ensures Ticking() && State() == U.Dispatch(t, old(State()), req, session, a)
    {
      hide U.Respond;
      var sid := req[0];
      var i := 0;
      while i < |t| && t[i].sid != sid
        invariant i <= |t| && U.Find(t, sid, 0) == U.Find(t, sid, i)
      {
        i := i + 1;
      }
      if i == |t| {
        SendNegative(sid, U.SERVICE_NOT_SUPPORTED);
      } else if !t[i].handler {
        SendNegative(sid, U.GENERAL_REJECT);
      } else if session !in t[i].sessions {
        SendNegative(sid, U.NOT_IN_SESSION);
      } else if |req| < t[i].minLength {
        SendNegative(sid, U.INCORRECT_LENGTH);
      } else {
        isBusy := true;
        suppressPosResp := suppressPosResp || a.suppress;
        Respond(i, a.code);
      }
    }

    /** Uds_ApiDataIndication */
    method DataIndication(req: Option<bytes>, session: nat, a: U.Answer)
      requires Valid()
      modifies this
      ensures Valid() && State() == U.DataIndication(t, old(State()), req, session, a)
    {
      hide U.Dispatch;
      U.IndicationKeeps(t, State(), req, session, a);
      StartS3();
      if req.None? || |req.value| == 0 {
        SendResponse(U.Malformed);
        SendNegative(0, U.GENERAL_REJECT);
      } else if !isBusy {
        SendResponse(U.Accepted(req.value[0]));
        Dispatch(req.value, session, a);
      }
    }

    /** rbUds_ApiRxStarted */
    method RxStarted()
      requires Valid()
      modifies this
      ensures Valid() && State() == U.RxStarted(old(State()))
    {
      s3Timer := s3Timer.Update(now);
      match s3Timer.status
      case StStopped =>
      case StIdle => s3Timer := Started(now, U.S3_MS).(status := StStopped);
      case _ => s3Timer := UNSET;
    }

    /** Uds_CoreResponsePendingTask; the repeat timer has just been looked at. */
    method PendingTask(sid: byte, code: U.Code)
      requires Ticking()
      modifies this
      ensures Ticking() && State() == U.PendingTask(old(State()), sid, code)
    {
      rcrrpTimer := rcrrpTimer.Update(now);
      match code
      case Positive => SendPositive(sid);
      case ResponsePending =>
        if rcrrpTimer.status == StElapsed {
          StartS3();
          SendPending(sid);
        }
      case Negative(nrc) => SendNegative(sid, nrc);
    }

    /** Mcu_PerformReset: the variables come up as after power-on. */
    method PerformReset()
      modifies this
      ensures Ticking() && State() == U.Record(U.Init().(now := old(now), log := old(log)), U.McuReset)
    {
      isBusy, rcrrpTxConfirm, rcrrpSidIndex, suppressPosResp := false, false, INVALID_INDEX, false;
      rcrrpTimer, rcrrpPendingTimer, s3Timer := UNSET, UNSET, UNSET;
      log := log + [U.McuReset];
    }

    /** Both timers of the pending service are looked at. */
    method LookAtTimers()
      requires Ticking()
      modifies this`rcrrpTimer, this`rcrrpPendingTimer
      ensures Ticking() && State() == old(State())
      ensures rcrrpTimer.status == StElapsed <==> Elapsed(rcrrpTimer.Meaning(), now)
      ensures rcrrpPendingTimer.status == StElapsed <==> Elapsed(rcrrpPendingTimer.Meaning(), now)
    {
      rcrrpTimer := rcrrpTimer.Update(now);
      rcrrpPendingTimer := rcrrpPendingTimer.Update(now);
    }

    method ResponsePendingSubtask(code: U.Code)
      requires Ticking()
      modifies this
      ensures Ticking() && State() == U.PendingSubtask(t, old(State()), code)
    {
      hide U.PendingTask;
      if rcrrpSidIndex < |t| {
        var row := t[rcrrpSidIndex];
        if !row.pending {
          SendResponse(U.Abandoned);
          SetIdle();
        } else {
          LookAtTimers();
          if rcrrpTxConfirm {
            if rcrrpPendingTimer.status != StElapsed {
              PendingTask(row.sid, code);
            } else if U.ResetsOnLimit(row.sid) {
              PerformReset();
            } else {
              PendingTask(row.sid, U.Negative(U.GENERAL_REJECT));
            }
          } else if rcrrpTimer.status == StElapsed {
            SendResponse(U.ConfirmTimeout);
            SetIdle();
          }
        }
      }
    }

    method S3TimerSubtask(defaultSession: bool)
      requires Ticking()
      modifies this
      ensures Ticking() && State() == U.S3Subtask(old(State()), defaultSession)
    {
      s3Timer := s3Timer.Update(now);
      if !defaultSession && s3Timer.status == StElapsed {
        SendResponse(U.SessionReset);
        SetIdle();
        s3Timer := UNSET;
      }
    }

    /** Uds_CoreCyclic after dt milliseconds. */
    method Cyclic(dt: nat, code: U.Code, defaultSession: bool)
      requires Valid()
      modifies this
      ensures Valid() && State() == U.Step(t, old(State()), U.ECyclic(dt, code, defaultSession))
    {
      hide U.Inv, U.PendingSubtask, U.S3Subtask;
      U.StepKeeps(t, State(), U.ECyclic(dt, code, defaultSession));
      now := now + dt;
      ResponsePendingSubtask(code);
      S3TimerSubtask(defaultSession);
    }
  }
}
