/** Elapsed-time timers: what a timer means, and the stored record whose elapsed state sticks until it is set again. */
module ElTime {

  /** A timer by its meaning: a start time and a duration, idle, or stopped. */
  datatype Timer = Idle | Stopped | Running(start: nat, duration: nat)

  predicate Elapsed(t: Timer, now: nat) {
    t.Running? && now >= t.start + t.duration
  }

  /** RBD_ELTIME_RBTIMER_STATE_* */
  datatype Status = StIdle | StRunning | StElapsed | StStopped

  /** The stored timer; the elapsed state is entered only when the timer is looked at. */
  datatype RbTimer = RbTimer(status: Status, start: nat, duration: nat) {

    function Meaning(): Timer {
      match status
      case StIdle => Idle
      case StStopped => Stopped
      case _ => Running(start, duration)
    }

    /** A timer marked elapsed really is. */
    predicate Consistent(now: nat) {
      status == StElapsed ==> now >= start + duration
    }

    /** rbd_ElTime_rbTimerUpdate */
    function Update(now: nat): (t: RbTimer)
      requires Consistent(now)
      ensures t.Meaning() == Meaning() && t.Consistent(now)
      ensures t.status == StElapsed <==> Elapsed(Meaning(), now)
    {
      if status == StRunning && now >= start + duration then this.(status := StElapsed) else this
    }
  }

  /** rbd_ElTime_rbTimerInit */
  const UNSET: RbTimer := RbTimer(StIdle, 0, 0)

  /** rbd_ElTime_rbTimerStart */
  function Started(now: nat, duration: nat): (t: RbTimer)
    ensures t.Meaning() == Running(now, duration) && t.Consistent(now)
  {
    RbTimer(StRunning, now, duration)
  }
}
