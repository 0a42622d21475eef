/**
 * What becomes of a wake-up or a repeat message request. The node only notes it as its next state; until the next main
 * function call has decided, a timeout or the network request of the node itself can overwrite it.
 */
module CanNmWakeUp {
  import opened Bytes
  import opened ElTime
  import opened CanNm

  /** This call, made in state s, notes repeat message as the next state. */
  predicate Notes(s: State, e: Event) {
    match s.state
    case BusSleep => e.EPassive? || (e.ERx? && e.longEnough)
    case PrepareSleep => e.EPassive? || (e.ERx? && e.longEnough)
    case ReadySleep => e.ERx? && e.longEnough && e.repeatRequest
    case NormalOperation => e.ERx? && e.longEnough && e.repeatRequest
    case RepeatMessage => false
  }

  predicate Decides(e: Event) {
    e.EMain? && e.online
  }

  /** Call j notes it, and the last call is the first main function call after that. */
  ghost predicate Noted(c: Config, events: seq<Event>, j: nat) {
    && j < |events| - 1 && Notes(Run(c, events[..j]), events[j]) && Decides(events[|events| - 1])
    && forall k :: j < k < |events| - 1 ==> !Decides(events[k])
  }

  /** Where the node goes, judged by what the observer of its history knows, the time and the network request. */
  function Outcome(c: Config, o: Seen, at: nat, requested: bool): Nm {
    match o.state
    case PrepareSleep => if at >= o.since + c.waitBusSleep && !requested then BusSleep else RepeatMessage
    case ReadySleep => if requested then NormalOperation else if at >= o.since + c.timeout then PrepareSleep else RepeatMessage
    case NormalOperation => if requested then RepeatMessage else ReadySleep
    case _ => RepeatMessage
  }

  lemma RunStep(c: Config, events: seq<Event>, e: Event)
    ensures Run(c, events + [e]) == Step(c, Run(c, events), e)
  {
    assert (events + [e])[..|events|] == events;
  }

  /** A call that notes it, and any call but a deciding one afterwards. */
  lemma NotesStep(c: Config, s: State, e: Event)
    ensures Notes(s, e) ==> Step(c, s, e).state == s.state && Step(c, s, e).next == RepeatMessage
    ensures s.next == RepeatMessage && !Decides(e) ==> Step(c, s, e).state == s.state && Step(c, s, e).next == RepeatMessage
  {
  }

  /** Until it is decided on, what was noted stays noted, and the node stays in its state. */
  lemma {:induction false} StaysNoted(c: Config, events: seq<Event>, j: nat)
    requires j < |events| && Notes(Run(c, events[..j]), events[j]) && forall k :: j < k < |events| ==> !Decides(events[k])
    ensures var s := Run(c, events); s.next == RepeatMessage && s.state == Run(c, events[..j]).state
  {
    hide Step, Notes;
    var n := |events| - 1;
    var before := events[..n];
    if j < n {
      assert before[..j] == events[..j] && before[j] == events[j];
      assert forall k :: j < k < n ==> before[k] == events[k];
      StaysNoted(c, before, j);
    }
    NotesStep(c, Run(c, before), events[n]);
  }

  /** The decision in one state of the node. */
  lemma DecisionIs(c: Config, s: State, dt: nat)
    requires Inv(c, s) && s.next == RepeatMessage && s.state != RepeatMessage
    ensures var s' := Main(c, Wait(s, dt), true);
            s'.now == s.now + dt && s'.state == Outcome(c, Watch(c, s.log).value, s'.now, s.requested)
  {
    hide Watch, SetState;
    var s1 := CycleHandling(c, Wait(s, dt));
    EntersState(c, RequestHandling(c, RepeatHandling(TimeoutHandling(s1))));
  }

  lemma EntersState(c: Config, s: State)
    ensures SetState(c, s, s.next).state == s.next && SetState(c, s, s.next).now == s.now
  {
  }

  /**
   * In every run: a wake-up or repeat message request noted in any state leads, at the next main function call, exactly
   * where the history, the time and the network request say. It is served if and only if, in prepare sleep, the wait
   * time is not over or the network is requested; in ready sleep, the timeout since the last frame heard is not over
   * and the network is not requested; in normal operation, the network is requested; in bus sleep, always.
   */
  lemma WakeUpSurvivesExactly(c: Config, events: seq<Event>, j: nat)
    requires Noted(c, events, j)
    ensures var before, after := Run(c, events[..|events| - 1]), Run(c, events);
            && Watch(c, before.log).Some? && Watch(c, before.log).value.state == Run(c, events[..j]).state != RepeatMessage
            && after.state == Outcome(c, Watch(c, before.log).value, after.now, before.requested)
  {
    hide Watch, Main, Notes, Outcome;
    var n := |events| - 1;
    var before := events[..n];
    assert before[..j] == events[..j] && before[j] == events[j];
    assert forall k :: j < k < n ==> before[k] == events[k];
    StaysNoted(c, before, j);
    RunKeeps(c, before);
    NotInRepeat(c, events, j);
    DecisionIs(c, Run(c, before), events[n].dt);
  }

  lemma NotInRepeat(c: Config, events: seq<Event>, j: nat)
    requires j < |events| && Notes(Run(c, events[..j]), events[j])
    ensures Run(c, events[..j]).state != RepeatMessage
  {
  }

  /** A run in which what was noted in state st is not served. */
  ghost predicate Loses(c: Config, st: Nm, events: seq<Event>, j: nat) {
    Noted(c, events, j) && Run(c, events[..j]).state == st && Run(c, events).state != RepeatMessage
  }

  /** What was noted last is decided on at once. */
  lemma LosesAfter(c: Config, events: seq<Event>, note: Event, last: Event) returns (longer: seq<Event>)
    requires Notes(Run(c, events), note) && Decides(last)
    requires Step(c, Step(c, Run(c, events), note), last).state != RepeatMessage
    ensures Loses(c, Run(c, events).state, longer, |events|)
  {
    hide Step, Run, Notes;
    longer := events + [note] + [last];
    assert longer[..|events|] == events;
    RunStep(c, events, note);
    RunStep(c, events + [note], last);
  }

  /** A node that was woken by a frame and is in ready sleep, for every calibration. */
  lemma InReadySleep(c: Config) returns (events: seq<Event>)
    ensures var s := Run(c, events);
            s.state == ReadySleep && !s.requested && s.nmTimer == Running(s.now, c.timeout) && s.cycleTimer == Idle
  {
    var a, b, d := ERx(0, true, false), EMain(0, true), EMain(c.repeatMessage, true);
    assert Run(c, []) == Init();
    RunStep(c, [], a);
    RunStep(c, [] + [a], b);
    RunStep(c, [] + [a] + [b], d);
    assert Run(c, [] + [a]).next == RepeatMessage;
    assert Run(c, [] + [a] + [b]).state == RepeatMessage;
    events := [] + [a] + [b] + [d];
  }

  lemma LostInReadySleep(c: Config) returns (events: seq<Event>, j: nat)
    ensures Loses(c, ReadySleep, events, j)
  {
    hide Run;
    var before := InReadySleep(c);
    j := |before|;
    events := LosesAfter(c, before, ERx(0, true, true), EMain(c.timeout, true));
  }

  /** A frame that comes when the wait time is over wakes nobody. */
  lemma LostInPrepareSleep(c: Config) returns (events: seq<Event>, j: nat)
    ensures Loses(c, PrepareSleep, events, j)
  {
    hide Run;
    var before := InReadySleep(c);
    RunStep(c, before, EMain(c.timeout, true));
    var asleep := before + [EMain(c.timeout, true)];
    assert Run(c, asleep).state == PrepareSleep && !Run(c, asleep).requested;
    j := |asleep|;
    events := LosesAfter(c, asleep, ERx(c.waitBusSleep, true, false), EMain(0, true));
  }

  lemma InNormalOperation(c: Config) returns (events: seq<Event>)
    ensures Run(c, events).state == NormalOperation
  {
    hide Run, SetState;
    var before := InReadySleep(c);
    RunStep(c, before, ENetwork(0, true));
    RunStep(c, before + [ENetwork(0, true)], EMain(0, true));
    events := before + [ENetwork(0, true)] + [EMain(0, true)];
    EntersState(c, Run(c, before + [ENetwork(0, true)]).(next := NormalOperation));
  }

  /** A request to repeat is dropped by a node that is about to release the network. */
  lemma LostInNormalOperation(c: Config) returns (events: seq<Event>, j: nat)
    ensures Loses(c, NormalOperation, events, j)
  {
    hide Run;
    var awake := InNormalOperation(c);
    RunStep(c, awake, ENetwork(0, false));
    var released := awake + [ENetwork(0, false)];
    j := |released|;
    events := LosesAfter(c, released, ERx(0, true, true), EMain(0, true));
  }

  /** For every calibration: a run can lose what it noted in prepare sleep, ready sleep and normal operation, and nowhere else. */
  lemma LostExactly(c: Config, st: Nm)
    ensures (exists events, j :: Loses(c, st, events, j)) <==> st in {PrepareSleep, ReadySleep, NormalOperation}
  {
    hide Run;
    match st
    case PrepareSleep => var events, j := LostInPrepareSleep(c);
    case ReadySleep => var events, j := LostInReadySleep(c);
    case NormalOperation => var events, j := LostInNormalOperation(c);
    case _ =>
      forall events, j ensures !Loses(c, st, events, j) {
        if Loses(c, st, events, j) { WakeUpSurvivesExactly(c, events, j); }
      }
  }
}
