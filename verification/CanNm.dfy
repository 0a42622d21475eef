/** CAN network management: the five states, their timers, immediate transmissions and the CPU power request. */
module CanNm {
  import opened Bytes
  import opened ElTime

  datatype Nm = BusSleep | PrepareSleep | ReadySleep | NormalOperation | RepeatMessage

  /** Calibrated times in milliseconds, and the number of immediate transmissions. */
  datatype Config = Config(
    timeout: nat, waitBusSleep: nat, repeatMessage: nat, msgCycle: nat, immediateCycle: nat, reduced: nat,
    immediateTransmissions: nat)

  /** History: state changes with the network request seen at that moment, NM frames heard, transmissions. */
  datatype Note = Enter(to: Nm, at: nat, requested: bool) | Heard(at: nat) | Triggered(at: nat)

  datatype State = State(
    state: Nm, next: Nm, requested: bool, count: nat, nmTimer: Timer, cycleTimer: Timer, power: bool,
    now: nat, log: seq<Note>)

  /** CanNm_Init */
  function Init(): State {
    State(BusSleep, BusSleep, false, 0, Idle, Idle, false, 0, [])
  }

  function Record(s: State, n: Note): State {
    s.(log := s.log + [n])
  }

  // ----- Entry points -----------------------------------------------------------------------------------

  /** CanNm_PassiveStartUp */
  function PassiveStartUp(s: State): (State, Result) {
    if s.state == BusSleep || s.state == PrepareSleep then (s.(next := RepeatMessage), Ok) else (s, NotOk)
  }

  /** CanNm_RxIndication of a frame that is long enough. */
  function RxIndication(c: Config, s: State, repeatRequest: bool): State {
    var s1 := Record(s, Heard(s.now));
    match s.state
    case BusSleep => s1.(next := RepeatMessage)
    case PrepareSleep => s1.(next := RepeatMessage)
    case ReadySleep =>
      var s2 := s1.(nmTimer := Running(s.now, c.timeout));
      if repeatRequest then s2.(next := RepeatMessage) else s2
    case NormalOperation =>
      var s2 := if c.reduced > 0 then s1.(cycleTimer := Running(s.now, c.reduced)) else s1;
      if repeatRequest then s2.(next := RepeatMessage) else s2
    case RepeatMessage => s1
  }

  /** CanNm_SetState */
  function SetState(c: Config, s: State, to: Nm): State {
    var s1 := Record(s, Enter(to, s.now, s.requested)).(state := to);
    match to
    case BusSleep => s1.(nmTimer := Idle, cycleTimer := Idle, power := false)
    case PrepareSleep => s1.(nmTimer := Running(s.now, c.waitBusSleep), cycleTimer := Idle)
    case ReadySleep => s1.(nmTimer := Running(s.now, c.timeout), cycleTimer := Idle)
    case NormalOperation =>
      var s2 := s1.(nmTimer := Idle, power := true);
      if s.cycleTimer.Running? && !Elapsed(s.cycleTimer, s.now) then s2
      else Record(s2, Triggered(s.now)).(cycleTimer := Running(s.now, c.msgCycle))
    case RepeatMessage =>
      var s2 := s1.(nmTimer := Running(s.now, c.repeatMessage), power := true);
      var s3 := if s.count > 0 then s2.(cycleTimer := Running(s.now, c.immediateCycle), count := s.count - 1)
                else s2.(cycleTimer := Running(s.now, c.msgCycle));
      Record(s3, Triggered(s.now))
  }

  /** CanNm_MsgCycleTimerHandling */
  function CycleHandling(c: Config, s: State): State {
    if !Elapsed(s.cycleTimer, s.now) then s
    else
      var s1 := Record(s, Triggered(s.now));
      match s.state
      case RepeatMessage =>
        var n := if s.count > 0 then s.count - 1 else 0;
        s1.(count := n, cycleTimer := Running(s.now, if n == 0 then c.msgCycle else c.immediateCycle))
      case NormalOperation => s1.(cycleTimer := Running(s.now, c.msgCycle))
      case _ => s1
  }

  /** CanNm_NmTimeoutTimerHandling: a timeout overrides a wake-up that was noted before. */
  function TimeoutHandling(s: State): State {
    if !Elapsed(s.nmTimer, s.now) then s
    else if s.state == PrepareSleep then s.(next := BusSleep)
    else if s.state == ReadySleep then s.(next := PrepareSleep)
    else s
  }

  /** CanNm_RepeatMessageTimeoutHandling */
  function RepeatHandling(s: State): State {
    if s.count == 0 && s.state == RepeatMessage && Elapsed(s.nmTimer, s.now)
    then s.(next := if s.requested then NormalOperation else ReadySleep) else s
  }

  /** CanNm_NetworkRequestHandling */
  function RequestHandling(c: Config, s: State): State {
    match s.state
    case BusSleep => if s.requested then s.(count := c.immediateTransmissions, next := RepeatMessage) else s
    case PrepareSleep => if s.requested then s.(count := c.immediateTransmissions, next := RepeatMessage) else s
    case ReadySleep => if s.requested then s.(next := NormalOperation) else s
    case NormalOperation => if !s.requested then s.(next := ReadySleep) else s
    case RepeatMessage => s
  }

  /** CanNm_MainFunction; it does nothing while the CAN state manager is offline. */
  function Main(c: Config, s: State, online: bool): State {
    if !online then s
    else
      var s1 := RequestHandling(c, RepeatHandling(TimeoutHandling(CycleHandling(c, s))));
      if s1.next != s1.state then SetState(c, s1, s1.next) else s1
  }

  // ----- Reading the history ----------------------------------------------------------------------------

  /** What an observer of the history knows: the state, since when it has been quiet, and transmissions in it. */
  datatype Seen = Seen(state: Nm, since: nat, triggers: nat, required: nat)

  /** The time that must pass, and the transmissions that must have been triggered, before a state is left. */
  predicate MayEnter(c: Config, o: Seen, to: Nm, at: nat) {
    match to
    case BusSleep => o.state == PrepareSleep && at >= o.since + c.waitBusSleep
    case PrepareSleep => o.state == ReadySleep && at >= o.since + c.timeout
    case ReadySleep => o.state == NormalOperation || LeavesRepeat(c, o, at)
    case NormalOperation => o.state == ReadySleep || LeavesRepeat(c, o, at)
    case RepeatMessage => o.state != RepeatMessage
  }

  predicate LeavesRepeat(c: Config, o: Seen, at: nat) {
    o.state == RepeatMessage && at >= o.since + c.repeatMessage && o.triggers >= o.required
  }

  function Follow(c: Config, o: Option<Seen>, n: Note): Option<Seen> {
    if o.None? then None
    else match n
      case Enter(to, at, requested) =>
        if !MayEnter(c, o.value, to, at) then None
        else
          var immediate := requested && to == RepeatMessage && (o.value.state == BusSleep || o.value.state == PrepareSleep);
          Some(Seen(to, at, 0, if immediate then c.immediateTransmissions else 0))
      case Heard(at) => Some(if o.value.state == ReadySleep && at > o.value.since then o.value.(since := at) else o.value)
      case Triggered(_) => Some(o.value.(triggers := o.value.triggers + 1))
  }

  /** None when some state change came too early or by a wrong edge. */
  function Watch(c: Config, log: seq<Note>): Option<Seen> {
    if log == [] then Some(Seen(BusSleep, 0, 0, 0)) else Follow(c, Watch(c, log[..|log| - 1]), log[|log| - 1])
  }

  lemma WatchStep(c: Config, log: seq<Note>, n: Note)
    ensures Watch(c, log + [n]) == Follow(c, Watch(c, log), n)
  {
    assert (log + [n])[..|log|] == log;
  }

  // ----- Invariant --------------------------------------------------------------------------------------

  /** The NM timer measures what the observer measures. */
  ghost predicate Timed(c: Config, state: Nm, nmTimer: Timer, count: nat, o: Seen) {
    match state
    case BusSleep => nmTimer == Idle
    case PrepareSleep => nmTimer == Running(o.since, c.waitBusSleep)
    case ReadySleep => nmTimer == Running(o.since, c.timeout)
    case NormalOperation => nmTimer == Idle
    case RepeatMessage => nmTimer == Running(o.since, c.repeatMessage) && o.triggers + count >= o.required
  }

  ghost predicate Inv(c: Config, s: State) {
    && (s.next == s.state || s.next == RepeatMessage)
    && (s.power <==> s.state != BusSleep)
    && (s.count > 0 ==> s.state == RepeatMessage)
    && Watch(c, s.log).Some? && Watch(c, s.log).value.state == s.state && Watch(c, s.log).value.since <= s.now
    && Timed(c, s.state, s.nmTimer, s.count, Watch(c, s.log).value)
  }

  lemma RxKeeps(c: Config, s: State, repeatRequest: bool)
    requires Inv(c, s)
    ensures Inv(c, RxIndication(c, s, repeatRequest))
  {
    hide Watch;
    WatchStep(c, s.log, Heard(s.now));
  }

  lemma CycleKeeps(c: Config, s: State)
    requires Inv(c, s)
    ensures Inv(c, CycleHandling(c, s))
  {
    hide Watch;
    WatchStep(c, s.log, Triggered(s.now));
  }

  /** What the handlers decide: only edges whose time has come, and immediate transmissions on request. */
  ghost predicate Decided(c: Config, s: State, s1: State) {
    && s1 == s.(next := s1.next, count := s1.count)
    && (s1.count == s.count || (s1.next == RepeatMessage && s.requested && (s.state == BusSleep || s.state == PrepareSleep)
                                && s1.count == c.immediateTransmissions))
    && (s1.next != s.state ==>
          match s1.next
          case BusSleep => s.state == PrepareSleep && Elapsed(s.nmTimer, s.now)
          case PrepareSleep => s.state == ReadySleep && Elapsed(s.nmTimer, s.now)
          case ReadySleep => s.state == NormalOperation || (s.state == RepeatMessage && s.count == 0 && Elapsed(s.nmTimer, s.now))
          case NormalOperation => s.state == ReadySleep || (s.state == RepeatMessage && s.count == 0 && Elapsed(s.nmTimer, s.now))
          case RepeatMessage => s.requested && (s.state == BusSleep || s.state == PrepareSleep) ==> s1.count == c.immediateTransmissions)
    && (s1.next == s.state ==> s1.count == s.count)
  }

  lemma HandlersDecide(c: Config, s: State)
    requires Inv(c, s)
    ensures Decided(c, s, RequestHandling(c, RepeatHandling(TimeoutHandling(s))))
  {
    hide Watch;
  }

  lemma SetStateKeeps(c: Config, s: State, s1: State)
    requires Inv(c, s) && Decided(c, s, s1) && s1.next != s1.state
    ensures Inv(c, SetState(c, s1, s1.next))
  {
    hide Watch;
    var n := Enter(s1.next, s1.now, s1.requested);
    WatchStep(c, s1.log, n);
    WatchStep(c, s1.log + [n], Triggered(s1.now));
  }

  lemma MainKeeps(c: Config, s: State, online: bool)
    requires Inv(c, s)
    ensures Inv(c, Main(c, s, online))
  {
    hide Watch, CycleHandling, SetState, RequestHandling, RepeatHandling, TimeoutHandling;
    if online {
      CycleKeeps(c, s);
      var s0 := CycleHandling(c, s);
      HandlersDecide(c, s0);
      var s1 := RequestHandling(c, RepeatHandling(TimeoutHandling(s0)));
      if s1.next != s1.state { SetStateKeeps(c, s0, s1); }
    }
  }

  // ----- Runs -------------------------------------------------------------------------------------------

  datatype Event =
    | ENetwork(dt: nat, requested: bool)
    | EPassive(dt: nat)
    | ERx(dt: nat, longEnough: bool, repeatRequest: bool)
    | EMain(dt: nat, online: bool)

  function Wait(s: State, dt: nat): State {
    s.(now := s.now + dt)
  }

  function Step(c: Config, s: State, e: Event): State {
    match e
    case ENetwork(dt, requested) => Wait(s, dt).(requested := requested)
    case EPassive(dt) => PassiveStartUp(Wait(s, dt)).0
    case ERx(dt, longEnough, repeatRequest) => if longEnough then RxIndication(c, Wait(s, dt), repeatRequest) else Wait(s, dt)
    case EMain(dt, online) => Main(c, Wait(s, dt), online)
  }

  lemma StepKeeps(c: Config, s: State, e: Event)
    requires Inv(c, s)
    ensures Inv(c, Step(c, s, e))
  {
    hide Watch, RxIndication, Main;
    assert Inv(c, Wait(s, e.dt));
    match e
    case ENetwork(dt, requested) =>
    case EPassive(dt) =>
    case ERx(dt, longEnough, repeatRequest) => RxKeeps(c, Wait(s, dt), repeatRequest);
    case EMain(dt, online) => MainKeeps(c, Wait(s, dt), online);
  }

  /** The node after any calls, each some time after the one before. */
  function Run(c: Config, events: seq<Event>): State {
    if events == [] then Init() else Step(c, Run(c, events[..|events| - 1]), events[|events| - 1])
  }

  lemma {:induction false} RunKeeps(c: Config, events: seq<Event>)
    ensures Inv(c, Run(c, events))
  {
    hide Inv, Step;
    if events == [] {
      InitKeeps(c);
    } else {
      RunKeeps(c, events[..|events| - 1]);
      StepKeeps(c, Run(c, events[..|events| - 1]), events[|events| - 1]);
    }
  }

  lemma InitKeeps(c: Config)
    ensures Inv(c, Init())
  {
  }

  /**
   * In every run: the history passes the observer, so bus sleep is reached only through ready sleep and then
   * prepare sleep, each held for its full time counted from the last NM frame heard in ready sleep, and repeat
   * message is not left before its time and the configured immediate transmissions; the CPU power request is held
   * exactly outside bus sleep; the immediate count is non-zero only in repeat message.
   */
  lemma RunsAreLegal(c: Config, events: seq<Event>)
    ensures var s := Run(c, events);
            && Watch(c, s.log).Some? && Watch(c, s.log).value.state == s.state
            && (s.power <==> s.state != BusSleep) && (s.count > 0 ==> s.state == RepeatMessage)
  {
    hide Watch;
    RunKeeps(c, events);
  }

  /** Any prefix of a legal history is legal. */
  lemma {:induction false} WatchPrefix(c: Config, log: seq<Note>, k: nat)
    requires k <= |log| && Watch(c, log).Some?
    ensures Watch(c, log[..k]).Some?
  {
    if k < |log| {
      WatchPrefix(c, log[..|log| - 1], k);
      assert log[..|log| - 1][..k] == log[..k];
    } else {
      assert log[..k] == log;
    }
  }

  /** The latest state change, and nothing since then that the quiet time does not cover. */
  ghost predicate QuietSince(log: seq<Note>, entry: nat, state: Nm, since: nat) {
    && entry < |log| && log[entry].Enter? && log[entry].to == state && log[entry].at <= since
    && forall j :: entry < j < |log| ==> !log[j].Enter? && (state == ReadySleep && log[j].Heard? ==> log[j].at <= since)
  }

  /** Transmissions triggered behind position from. */
  ghost function TriggersIn(log: seq<Note>, from: nat): nat {
    if |log| <= from + 1 then 0
    else TriggersIn(log[..|log| - 1], from) + if log[|log| - 1].Triggered? then 1 else 0
  }

  /** The observer's knowledge comes from the latest state change, which was itself legal. */
  lemma {:induction false} LatestEntry(c: Config, log: seq<Note>) returns (entry: nat)
    requires Watch(c, log).Some? && Watch(c, log).value.state != BusSleep
    ensures var o := Watch(c, log).value; QuietSince(log, entry, o.state, o.since) && o.triggers == TriggersIn(log, entry)
    ensures Watch(c, log).value.state == RepeatMessage ==> Watch(c, log).value.since == log[entry].at
    ensures entry < |log| && Watch(c, log[..entry]).Some? && MayEnter(c, Watch(c, log[..entry]).value, log[entry].to, log[entry].at)
    ensures Follow(c, Watch(c, log[..entry]), log[entry]).Some?
            && Watch(c, log).value.required == Follow(c, Watch(c, log[..entry]), log[entry]).value.required
  {
    var n := |log| - 1;
    if log[n].Enter? {
      entry := n;
    } else {
      entry := LatestEntry(c, log[..n]);
      assert log[..n][..entry] == log[..entry];
      assert forall j :: 0 <= j < n ==> log[j] == log[..n][j];
    }
  }

  /** Bus sleep at position k was earned by prepare sleep from j and ready sleep from i. */
  ghost predicate Earned(c: Config, log: seq<Note>, i: nat, j: nat, k: nat) {
    && i < j < k < |log| && log[i].Enter? && log[j].Enter? && log[k].Enter?
    && log[i].to == ReadySleep && log[j].to == PrepareSleep
    && (forall m :: i < m < k && m != j ==> !log[m].Enter?)
    && log[j].at >= log[i].at + c.timeout && log[k].at >= log[j].at + c.waitBusSleep
    && (forall m :: i < m < j && log[m].Heard? ==> log[j].at >= log[m].at + c.timeout)
  }

  lemma SleepIsEarned(c: Config, events: seq<Event>, k: nat)
    requires k < |Run(c, events).log| && Run(c, events).log[k].Enter? && Run(c, events).log[k].to == BusSleep
    ensures exists i, j :: Earned(c, Run(c, events).log, i, j, k)
  {
    hide Run, Watch, Earned;
    var log := Run(c, events).log;
    RunsAreLegal(c, events);
    WatchPrefix(c, log, k + 1);
    var i, j := EarnedLast(c, log[..k + 1]);
    EarnedPrefix(c, log, i, j, k);
  }

  lemma EarnedPrefix(c: Config, log: seq<Note>, i: nat, j: nat, k: nat)
    requires k < |log| && Earned(c, log[..k + 1], i, j, k)
    ensures Earned(c, log, i, j, k)
  {
    assert forall m :: 0 <= m <= k ==> log[m] == log[..k + 1][m];
  }

  /** A legal history that ends by falling asleep. */
  lemma EarnedLast(c: Config, log: seq<Note>) returns (i: nat, j: nat)
    requires log != [] && Watch(c, log).Some? && log[|log| - 1].Enter? && log[|log| - 1].to == BusSleep
    ensures Earned(c, log, i, j, |log| - 1)
  {
    hide TriggersIn;
    var k := |log| - 1;
    j := LatestEntry(c, log[..k]);
    assert log[..k][..j] == log[..j];
    i := LatestEntry(c, log[..j]);
    assert forall m :: 0 <= m < j ==> log[m] == log[..j][m];
    assert forall m :: 0 <= m < k ==> log[m] == log[..k][m];
  }

  /** The node was asleep, or preparing to sleep, before position k. */
  ghost predicate Asleep(c: Config, log: seq<Note>, k: nat)
    requires k <= |log|
  {
    Watch(c, log[..k]).Some? && (Watch(c, log[..k]).value.state == BusSleep || Watch(c, log[..k]).value.state == PrepareSleep)
  }

  /** Repeat message entered at e is left at k only after its time and, if requested from sleep, all transmissions. */
  lemma RepeatIsServed(c: Config, events: seq<Event>, e: nat, k: nat)
    requires var log := Run(c, events).log;
             e < k < |log| && log[e].Enter? && log[e].to == RepeatMessage && log[k].Enter?
             && forall j :: e < j < k ==> !log[j].Enter?
    ensures var log := Run(c, events).log;
            && log[k].at >= log[e].at + c.repeatMessage
            && (log[e].requested && Asleep(c, log, e) ==> TriggersIn(log[..k], e) >= c.immediateTransmissions)
  {
    hide Run, Watch, TriggersIn, Asleep;
    var log := Run(c, events).log;
    RunsAreLegal(c, events);
    WatchPrefix(c, log, k + 1);
    assert forall m :: 0 <= m <= k ==> log[m] == log[..k + 1][m];
    assert log[..k + 1][..k] == log[..k] && log[..k + 1][..e] == log[..e];
    ServedLast(c, log[..k + 1], e);
    SameAsleep(c, log, log[..k + 1], e);
  }

  lemma SameAsleep(c: Config, log: seq<Note>, log': seq<Note>, e: nat)
    requires e <= |log| && e <= |log'| && log[..e] == log'[..e]
    ensures Asleep(c, log, e) == Asleep(c, log', e)
  {
  }

  /** A legal history that ends by leaving repeat message. */
  lemma ServedLast(c: Config, log: seq<Note>, e: nat)
    requires Watch(c, log).Some? && e < |log| - 1 && log[e].Enter? && log[e].to == RepeatMessage && log[|log| - 1].Enter?
    requires forall j :: e < j < |log| - 1 ==> !log[j].Enter?
    ensures log[|log| - 1].at >= log[e].at + c.repeatMessage
    ensures log[e].requested && Asleep(c, log, e) ==> TriggersIn(log[..|log| - 1], e) >= c.immediateTransmissions
  {
    hide TriggersIn, Asleep;
    var k := |log| - 1;
    assert forall m :: 0 <= m < k ==> log[m] == log[..k][m];
    InRepeat(c, log[..k], e);
    assert log[..k][..e] == log[..e];
    SameAsleep(c, log, log[..k], e);
  }

  /** What the observer knows while repeat message lasts. */
  lemma InRepeat(c: Config, log: seq<Note>, e: nat)
    requires e < |log| && log[e].Enter? && log[e].to == RepeatMessage && Watch(c, log).Some?
    requires forall j :: e < j < |log| ==> !log[j].Enter?
    ensures var o := Watch(c, log).value;
            && o.state == RepeatMessage && o.since == log[e].at && o.triggers == TriggersIn(log, e)
            && (log[e].requested && Asleep(c, log, e) ==> o.required == c.immediateTransmissions)
  {
    hide TriggersIn;
    Inside(c, log, e);
    var entry := LatestEntry(c, log);
    assert entry == e;
  }

  /** Between two state changes the observer stays in the state entered first. */
  lemma {:induction false} Inside(c: Config, log: seq<Note>, e: nat)
    requires e < |log| && log[e].Enter? && Watch(c, log).Some? && forall j :: e < j < |log| ==> !log[j].Enter?
    ensures Watch(c, log).value.state == log[e].to
  {
    var n := |log| - 1;
    if e < n {
      Inside(c, log[..n], e);
    }
  }
}
