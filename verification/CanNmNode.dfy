/** Network management on its own variables: stored timers that are looked at before they are used. */
module CanNmNode {
  import opened Bytes
  import opened ElTime
  import N = CanNm

  class Node {
    const c: N.Config
    // CanNm_Info, the next state, the network request, the immediate count and the CPU power request.
    var nmState: N.Nm
    var nextState: N.Nm
    var requested: bool
    var immediate: nat
    var nmTimeoutTimer: RbTimer
    var msgCycleTimer: RbTimer
    var cpuPower: bool
    // The clock, and what was done.
    var now: nat
    var log: seq<N.Note>

    /** The meaning of the variables. */
    ghost function State(): N.State
      reads this
    {
      N.State(nmState, nextState, requested, immediate, nmTimeoutTimer.Meaning(), msgCycleTimer.Meaning(), cpuPower, now, log)
    }

    /** No stored timer runs ahead of the clock. */
    ghost predicate Ticking()
      reads this
    {
      nmTimeoutTimer.Consistent(now) && msgCycleTimer.Consistent(now)
    }

    ghost predicate Valid()
      reads this
    {
      Ticking() && N.Inv(c, State())
    }

    constructor (c: N.Config)
      ensures this.c == c && State() == N.Init() && Valid()
    {
      this.c := c;
      nmState, nextState, requested, immediate, cpuPower := N.BusSleep, N.BusSleep, false, 0, false;
      nmTimeoutTimer, msgCycleTimer, now, log := UNSET, UNSET, 0, [];
    }

    /** CanNm_NetworkRequest and CanNm_NetworkRelease are noted until the next main function call. */
    method SetNetwork(request: bool)
      requires Valid()
      modifies this`requested
      ensures Valid() && State() == N.Step(c, old(State()), N.ENetwork(0, request))
    {
      requested := request;
    }

    method PassiveStartUp() returns (ret: Result)
      requires Valid()
      modifies this`nextState
      ensures Valid() && (State(), ret) == N.PassiveStartUp(old(State()))
    {
      ret := NotOk;
      if nmState == N.BusSleep || nmState == N.PrepareSleep {
        nextState := N.RepeatMessage;
        ret := Ok;
      }
    }

    method RxIndication(repeatRequest: bool)
      requires Valid()
      modifies this
      ensures Valid() && State() == N.RxIndication(c, old(State()), repeatRequest)
    {
      hide N.Inv;
      N.RxKeeps(c, State(), repeatRequest);
      log := log + [N.Heard(now)];
      match nmState {
        case BusSleep => nextState := N.RepeatMessage;
        case PrepareSleep => nextState := N.RepeatMessage;
        case ReadySleep => nmTimeoutTimer := Started(now, c.timeout);
        case NormalOperation =>
          if c.reduced > 0 {
            msgCycleTimer := Started(now, c.reduced);
          }
        case RepeatMessage =>
      }
      if repeatRequest && (nmState == N.NormalOperation || nmState == N.ReadySleep) {
        nextState := N.RepeatMessage;
      }
    }

    method TriggerTransmission()
      modifies this`log
      ensures log == old(log) + [N.Triggered(now)]
    {
      log := log + [N.Triggered(now)];
    }

    /** CanNm_SetState for the two states in which the node transmits. */
    method Awake(to: N.Nm)
      requires Ticking() && to in {N.NormalOperation, N.RepeatMessage}
      modifies this
      ensures Ticking() && State() == N.SetState(c, old(State()), to)
    {
      log := log + [N.Enter(to, now, requested)];
      nmState := to;
      if to == N.NormalOperation {
        nmTimeoutTimer := UNSET;
        msgCycleTimer := msgCycleTimer.Update(now);
        if msgCycleTimer.status != StRunning {
          msgCycleTimer := Started(now, c.msgCycle);
          TriggerTransmission();
        }
      } else {
        nmTimeoutTimer := Started(now, c.repeatMessage);
        if immediate > 0 {
          msgCycleTimer := Started(now, c.immediateCycle);
          immediate := immediate - 1;
        } else {
          msgCycleTimer := Started(now, c.msgCycle);
        }
        TriggerTransmission();
      }
      cpuPower := true;
    }

    method SetState(to: N.Nm)
      requires Ticking()
      modifies this
      ensures Ticking() && State() == N.SetState(c, old(State()), to)
    {
      if to == N.NormalOperation || to == N.RepeatMessage {
        Awake(to);
      } else {
        log := log + [N.Enter(to, now, requested)];
        nmState, msgCycleTimer := to, UNSET;
        if to == N.BusSleep {
          nmTimeoutTimer, cpuPower := UNSET, false;
        } else {
          nmTimeoutTimer := Started(now, if to == N.PrepareSleep then c.waitBusSleep else c.timeout);
        }
      }
    }

    method MsgCycleTimerHandling()
      requires Ticking()
      modifies this
      ensures Ticking() && State() == N.CycleHandling(c, old(State()))
    {
      msgCycleTimer := msgCycleTimer.Update(now);
      if msgCycleTimer.status == StElapsed {
        TriggerTransmission();
        if nmState == N.RepeatMessage {
          if immediate > 0 {
            immediate := immediate - 1;
          }
          msgCycleTimer := Started(now, if immediate == 0 then c.msgCycle else c.immediateCycle);
        } else if nmState == N.NormalOperation {
          msgCycleTimer := Started(now, c.msgCycle);
        }
      }
    }

    method NmTimeoutTimerHandling()
      requires Ticking()
      modifies this`nmTimeoutTimer, this`nextState
      ensures Ticking() && State() == N.TimeoutHandling(old(State()))
    {
      nmTimeoutTimer := nmTimeoutTimer.Update(now);
      if nmTimeoutTimer.status == StElapsed {
        if nmState == N.PrepareSleep {
          nextState := N.BusSleep;
        } else if nmState == N.ReadySleep {
          nextState := N.PrepareSleep;
        }
      }
    }

    method RepeatMessageTimeoutHandling()
      requires Ticking()
      modifies this`nmTimeoutTimer, this`nextState
      ensures Ticking() && State() == N.RepeatHandling(old(State()))
    {
      if immediate == 0 && nmState == N.RepeatMessage {
        nmTimeoutTimer := nmTimeoutTimer.Update(now);
        if nmTimeoutTimer.status == StElapsed {
          nextState := if requested then N.NormalOperation else N.ReadySleep;
        }
      }
    }

    method NetworkRequestHandling()
      modifies this`immediate, this`nextState
      ensures State() == N.RequestHandling(c, old(State()))
    {
      if nmState == N.BusSleep || nmState == N.PrepareSleep {
        if requested {
          immediate, nextState := c.immediateTransmissions, N.RepeatMessage;
        }
      } else if nmState == N.ReadySleep {
        if requested {
          nextState := N.NormalOperation;
        }
      } else if nmState == N.NormalOperation && !requested {
        nextState := N.ReadySleep;
      }
    }

    /** CanNm_MainFunction after dt milliseconds. */
    method MainFunction(dt: nat, online: bool)
      requires Valid()
      modifies this
      ensures Valid() && State() == N.Step(c, old(State()), N.EMain(dt, online))
    {
      hide N.Inv, N.CycleHandling, N.TimeoutHandling, N.RepeatHandling, N.RequestHandling, N.SetState;
      N.StepKeeps(c, State(), N.EMain(dt, online));
      now := now + dt;
      if online {
        MsgCycleTimerHandling();
        NmTimeoutTimerHandling();
        RepeatMessageTimeoutHandling();
        NetworkRequestHandling();
        if nextState != nmState {
          SetState(nextState);
        }
      }
    }
  }
}
